/** The snake's body: a head-first sequence of cells. */
module Body {
  import opened Grid

  /** No cell occurs twice in the body. */
  predicate NoDup(body: seq<Cell>) {
    forall i, j :: 0 <= i < j < |body| ==> body[i] != body[j]
  }

  /** Every cell of the body is on the board. */
  predicate AllInGrid(body: seq<Cell>, tileCount: int) {
    forall i :: 0 <= i < |body| ==> InGrid(body[i], tileCount)
  }

  /** The new head lands on a segment other than the current head, tail included. */
  predicate HitsBody(body: seq<Cell>, head: Cell) {
    exists i :: 1 <= i < |body| && body[i] == head
  }

  /** The scan over segments 1.. that `update` performs before moving. */
  method ScanBody(body: seq<Cell>, head: Cell) returns (hit: bool)
    ensures hit <==> HitsBody(body, head)
    ensures hit <==> |body| > 0 && head in body[1..]
  {
    var i := 1;
    while i < |body|
      invariant 1 <= i <= |body| || (|body| == 0 && i == 1)
      invariant forall j :: 1 <= j < i && j < |body| ==> body[j] != head
    {
      if body[i] == head {
        assert |body| > 0 && body[1..][i - 1] == head;
        return true;
      }
      i := i + 1;
    }
    return false;
  }

  /** Putting a cell that is not yet in the body at the front keeps the body free of repeats. */
  lemma PrependKeepsNoDup(head: Cell, body: seq<Cell>)
    requires NoDup(body)
    requires head !in body
    ensures NoDup([head] + body)
  {
    var b := [head] + body;
    forall i, j | 0 <= i < j < |b|
      ensures b[i] != b[j]
    {
      if i == 0 {
        assert b[j] == body[j - 1];
      } else {
        assert b[i] == body[i - 1] && b[j] == body[j - 1];
      }
    }
  }

  /** Dropping the tail keeps the body free of repeats and leaves only cells of the old body. */
  lemma DropTailKeepsNoDup(body: seq<Cell>)
    requires |body| > 0
    requires NoDup(body)
    ensures NoDup(body[..|body| - 1])
    ensures forall c :: c in body[..|body| - 1] ==> c in body
  {
  }

  /** The cells of a body, as a set; without repeats it has one element per segment. */
  function CellSet(body: seq<Cell>): (r: set<Cell>)
    ensures forall c :: c in r <==> c in body
    ensures NoDup(body) ==> |r| == |body|
  {
    if |body| == 0 then {}
    else
      assert NoDup(body) ==> body[0] !in body[1..] && NoDup(body[1..]);
      {body[0]} + CellSet(body[1..])
  }
}
