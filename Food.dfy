/**
 * Food placement by rejection sampling: draw a tile uniformly at random and
 * draw again while it lies on the snake. The random source is an oracle: the
 * sequence of `Math.random()` pairs the loop would consume, each in [0, 1).
 * The loop only ends when some draw lands on a free tile, so that is required.
 */
module Food {
  import opened Grid

  /** One pair of `Math.random()` results, for the column and the row. */
  datatype Draw = Draw(rx: real, ry: real)

  predicate ValidDraw(d: Draw)
  {
    0.0 <= d.rx < 1.0 && 0.0 <= d.ry < 1.0
  }

  predicate ValidDraws(draws: seq<Draw>)
  {
    forall i :: 0 <= i < |draws| ==> ValidDraw(draws[i])
  }

  /** `Math.floor(Math.random() * n)` for both coordinates. */
  function TileOf(d: Draw, n: int): Pos
  {
    Pos((d.rx * n as real).Floor, (d.ry * n as real).Floor)
  }

  /** Scaling a number in [0, 1) by `n` and flooring it gives a column in [0, n). */
  lemma FloorScaledInRange(r: real, n: int)
    requires 0.0 <= r < 1.0 && n > 0
    ensures 0 <= (r * n as real).Floor < n
  {
    var m := n as real;
    assert 0.0 <= r * m by {
      assert 0.0 <= m;
    }
    assert r * m < m by {
      assert (1.0 - r) * m > 0.0;
    }
  }

  lemma TileInBounds(d: Draw, n: int)
    requires ValidDraw(d) && n > 0
    ensures InBounds(TileOf(d, n), n)
  {
    FloorScaledInRange(d.rx, n);
    FloorScaledInRange(d.ry, n);
  }

  /** Some draw of the oracle lands on a tile outside `body`. */
  predicate HasFreeDraw(draws: seq<Draw>, n: int, body: seq<Pos>)
  {
    exists i :: 0 <= i < |draws| && TileOf(draws[i], n) !in body
  }

  /** The index of the draw that ends the sampling loop: the first free one. */
  function FirstFree(draws: seq<Draw>, n: int, body: seq<Pos>): (k: nat)
    requires HasFreeDraw(draws, n, body)
    ensures k < |draws| && TileOf(draws[k], n) !in body
    ensures forall j :: 0 <= j < k ==> TileOf(draws[j], n) in body
  {
    if TileOf(draws[0], n) !in body then 0
    else
      assert HasFreeDraw(draws[1..], n, body) by {
        var i :| 0 <= i < |draws| && TileOf(draws[i], n) !in body;
        assert draws[1..][i - 1] == draws[i];
      }
      1 + FirstFree(draws[1..], n, body)
  }

  /** The tile the sampling loop settles on. */
  function PlaceFood(draws: seq<Draw>, n: int, body: seq<Pos>): (p: Pos)
    requires HasFreeDraw(draws, n, body)
    ensures p !in body
    ensures n > 0 && ValidDraws(draws) ==> InBounds(p, n)
  {
    var k := FirstFree(draws, n, body);
    if n > 0 && ValidDraws(draws) then
      TileInBounds(draws[k], n);
      TileOf(draws[k], n)
    else
      TileOf(draws[k], n)
  }

  /**
   * The do-while loop of food generation: draw, and draw again while the tile
   * is occupied. It returns the first free tile the oracle offers.
   */
  method SampleFreeTile(draws: seq<Draw>, n: int, body: seq<Pos>) returns (tile: Pos)
    requires HasFreeDraw(draws, n, body)
    ensures tile == PlaceFood(draws, n, body)
    ensures tile !in body
    ensures n > 0 && ValidDraws(draws) ==> InBounds(tile, n)
  {
    ghost var k := FirstFree(draws, n, body);
    var i := 0;
    tile := TileOf(draws[i], n);
    while tile in body
      invariant 0 <= i <= k
      invariant tile == TileOf(draws[i], n)
      decreases k - i
    {
      i := i + 1;
      tile := TileOf(draws[i], n);
    }
  }
}
