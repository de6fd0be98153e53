/** Food placement: the retry loop of `placeFood`, driven by a given sequence of random draws. */
module Food {
  import opened Grid
  import opened Body

  /** Every draw is a board cell, as `Math.floor(Math.random() * tileCount)` per coordinate yields. */
  predicate DrawsInGrid(draws: seq<Cell>, tileCount: int) {
    forall i :: 0 <= i < |draws| ==> InGrid(draws[i], tileCount)
  }

  /** Some draw misses the snake, so the retry loop stops within `draws`. */
  predicate HasFreeDraw(snake: seq<Cell>, draws: seq<Cell>) {
    exists i :: 0 <= i < |draws| && draws[i] !in snake
  }

  /** Index of the draw at which the retry loop stops: the first one not on the snake. */
  function FirstFreeIndex(snake: seq<Cell>, draws: seq<Cell>): (i: nat)
    requires HasFreeDraw(snake, draws)
    ensures i < |draws| && draws[i] !in snake
    ensures forall j :: 0 <= j < i ==> draws[j] in snake
    decreases |draws|
  {
    if draws[0] !in snake then 0
    else
      assert HasFreeDraw(snake, draws[1..]) by {
        var k :| 0 <= k < |draws| && draws[k] !in snake;
        assert draws[1..][k - 1] == draws[k];
      }
      1 + FirstFreeIndex(snake, draws[1..])
  }

  /** The cell `placeFood` settles on. */
  function PlaceFood(tileCount: int, snake: seq<Cell>, draws: seq<Cell>): (food: Cell)
    requires DrawsInGrid(draws, tileCount)
    requires HasFreeDraw(snake, draws)
    ensures InGrid(food, tileCount)
    ensures food !in snake
    ensures food in draws
  {
    draws[FirstFreeIndex(snake, draws)]
  }

  /** A body covering the whole board leaves no free cell, so the retry loop of
      `placeFood` never stops: no sequence of draws holds a free one. */
  lemma FullBoardHasNoFreeDraw(body: seq<Cell>, tileCount: nat, draws: seq<Cell>)
    requires NoDup(body) && AllInGrid(body, tileCount)
    requires |body| == tileCount * tileCount
    requires DrawsInGrid(draws, tileCount)
    ensures !HasFreeDraw(body, draws)
  {
    var cells := CellSet(body);
    var board := BoardCells(tileCount, tileCount);
    assert cells <= board;
    forall i | 0 <= i < |draws|
      ensures draws[i] in body
    {
      var c := draws[i];
      if c !in cells {
        assert cells + {c} <= board;
        SubsetCardinality(cells + {c}, board);
        assert false;
      }
    }
  }
}
