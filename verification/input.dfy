/** The keydown handler: arrow keys start the game and steer the snake. */
module Input {
  import opened Grid
  import opened Game

  /** `e.key`, reduced to the values the handler distinguishes. */
  datatype Key = ArrowUp | ArrowDown | ArrowLeft | ArrowRight | Other

  predicate IsArrow(k: Key) {
    k != Other
  }

  /** The direction an arrow key asks for. */
  function Heading(k: Key): (d: Dir)
    requires IsArrow(k)
    ensures IsUnit(d)
  {
    match k
    case ArrowUp => Up
    case ArrowDown => Down
    case ArrowLeft => Left
    case ArrowRight => Right
  }

  /** The `switch (e.key)`: the per-key component test against `lastDirection`,
      which overwrites `next` when it passes. For every direction the game holds,
      the component tests are exactly the anti-reversal rule: an accepted key sets
      its heading, any other key changes nothing. */
  function Turn(last: Dir, next: Dir, k: Key): (d: Dir)
    ensures IsUnit(last) ==> (Accepts(last, k) ==> d == Heading(k))
    ensures IsUnit(last) ==> (!Accepts(last, k) ==> d == next)
  {
    match k
    case ArrowUp => if last.y != 1 then Up else next
    case ArrowDown => if last.y != -1 then Down else next
    case ArrowLeft => if last.x != 1 then Left else next
    case ArrowRight => if last.x != -1 then Right else next
    case Other => next
  }

  /** The anti-reversal rule: an arrow is taken unless it points straight back
      along the direction applied on the last tick. */
  predicate Accepts(last: Dir, k: Key) {
    IsArrow(k) && Heading(k) != Opposite(last)
  }

  /** One key event. */
  function KeyPress(s: GameState, k: Key): (r: Outcome)
    ensures r.state == s.(phase := r.state.phase, nextDirection := r.state.nextDirection)
    ensures r.state.phase == s.phase || (s.phase == Ready && IsArrow(k) && r.state.phase == Playing)
    ensures s.phase == Ready && IsArrow(k) ==> r.state.phase == Playing && r.timer == Restart(s.speed)
    ensures s.phase != Ready || !IsArrow(k) ==> r.timer == Keep
    ensures r.state.phase != Playing ==> r.state.nextDirection == s.nextDirection
    ensures IsUnit(s.lastDirection) && r.state.nextDirection != s.nextDirection ==>
              Accepts(s.lastDirection, k) && r.state.nextDirection == Heading(k)
    ensures IsUnit(s.lastDirection) && r.state.phase == Playing && Accepts(s.lastDirection, k) ==>
              r.state.nextDirection == Heading(k)
  {
    var started := s.phase == Ready && IsArrow(k);
    var t := if started then s.(phase := Playing) else s;
    var timer := if started then Restart(s.speed) else Keep;
    if t.phase != Playing then Outcome(t, timer)
    else Outcome(t.(nextDirection := Turn(t.lastDirection, t.nextDirection, k)), timer)
  }

  /** The state after the keys pressed between two ticks, in order. */
  function PressAll(s: GameState, keys: seq<Key>): (r: GameState)
    ensures r == s.(phase := r.phase, nextDirection := r.nextDirection)
    ensures s.phase == Over ==> r.phase == Over
    decreases |keys|
  {
    if |keys| == 0 then s
    else KeyPress(PressAll(s, keys[..|keys| - 1]), keys[|keys| - 1]).state
  }

  /** Before the game is over, keys change only the phase and the pending direction;
      play starts at the first arrow key, and that key is judged like every later one:
      the last accepted key decides the pending direction, and with no accepted key
      it stays as it was. */
  lemma {:induction false} LastAcceptedKeyWins(s: GameState, keys: seq<Key>)
    requires s.phase != Over && IsUnit(s.lastDirection)
    ensures var r := PressAll(s, keys);
      r.phase == (if s.phase == Playing || exists i :: 0 <= i < |keys| && IsArrow(keys[i]) then Playing else Ready)
    ensures (forall i :: 0 <= i < |keys| ==> !Accepts(s.lastDirection, keys[i])) ==>
              PressAll(s, keys).nextDirection == s.nextDirection
    ensures forall i ::
              (0 <= i < |keys| && Accepts(s.lastDirection, keys[i]) &&
               forall j :: i < j < |keys| ==> !Accepts(s.lastDirection, keys[j])) ==>
              PressAll(s, keys).nextDirection == Heading(keys[i])
    decreases |keys|
  {
    if |keys| > 0 {
      var m := |keys| - 1;
      var front := keys[..m];
      LastAcceptedKeyWins(s, front);
      var p := PressAll(s, front);
      assert forall i :: 0 <= i < m ==> front[i] == keys[i];
      if IsArrow(keys[m]) {
        assert PressAll(s, keys).phase == Playing;
      } else {
        assert PressAll(s, keys) == p;
      }
      if !Accepts(s.lastDirection, keys[m]) {
        assert PressAll(s, keys).nextDirection == p.nextDirection;
      }
    }
  }

  /** In the over phase every key is ignored. */
  lemma KeysIgnoredWhenOver(s: GameState, keys: seq<Key>)
    requires s.phase == Over
    ensures PressAll(s, keys) == s
  {
  }
}
