/**
 * The square tile grid the snake lives on: positions, the bounds check, the
 * shape of a snake body (a head-first sequence of tiles) and the collision test
 * a candidate head is put through before every move.
 */
module Grid {

  /** One tile, addressed by column `x` and row `y`. */
  datatype Pos = Pos(x: int, y: int)

  function Abs(v: int): (r: int)
    ensures r >= 0 && (r == v || r == -v)
  {
    if v < 0 then -v else v
  }

  /** The tile reached from `p` after moving by `(dx, dy)`. */
  function Translate(p: Pos, dx: int, dy: int): (q: Pos)
    ensures q.x - p.x == dx && q.y - p.y == dy
  {
    Pos(p.x + dx, p.y + dy)
  }

  /** `p` lies on an `n` by `n` board. */
  predicate InBounds(p: Pos, n: int)
  {
    0 <= p.x < n && 0 <= p.y < n
  }

  /** Two tiles that share an edge. */
  predicate Adjacent(p: Pos, q: Pos)
  {
    Abs(p.x - q.x) + Abs(p.y - q.y) == 1
  }

  predicate AllInBounds(body: seq<Pos>, n: int)
  {
    forall i :: 0 <= i < |body| ==> InBounds(body[i], n)
  }

  /** No tile is occupied twice. */
  predicate Distinct(body: seq<Pos>)
  {
    forall i, j :: 0 <= i < j < |body| ==> body[i] != body[j]
  }

  /** Every segment touches the next one along an edge. */
  predicate Connected(body: seq<Pos>)
  {
    forall i :: 0 <= i < |body| - 1 ==> Adjacent(body[i], body[i + 1])
  }

  /**
   * The collision rule: a wall collision when `head` leaves the board, or a
   * self collision when `head` is any current segment, the not yet removed
   * tail included.
   */
  predicate Collides(head: Pos, body: seq<Pos>, n: int)
  {
    !InBounds(head, n) || head in body
  }

  /** Putting a fresh in-bounds tile in front keeps a body well formed. */
  lemma PrependKeepsShape(head: Pos, body: seq<Pos>, n: int)
    requires !Collides(head, body, n)
    requires AllInBounds(body, n) && Distinct(body)
    ensures AllInBounds([head] + body, n) && Distinct([head] + body)
  {
    var b := [head] + body;
    forall i, j | 0 <= i < j < |b| ensures b[i] != b[j] {
      if i == 0 {
        assert b[j] == body[j - 1];
      } else {
        assert b[i] == body[i - 1] && b[j] == body[j - 1];
      }
    }
  }

  /** Dropping the last segment keeps a body well formed. */
  lemma DropLastKeepsShape(body: seq<Pos>, n: int)
    requires |body| >= 1
    requires AllInBounds(body, n) && Distinct(body) && Connected(body)
    ensures AllInBounds(body[..|body| - 1], n)
    ensures Distinct(body[..|body| - 1])
    ensures Connected(body[..|body| - 1])
  {
  }

  /** Putting a neighbour of the head in front keeps a body connected. */
  lemma PrependKeepsConnected(head: Pos, body: seq<Pos>)
    requires |body| >= 1 && Adjacent(head, body[0]) && Connected(body)
    ensures Connected([head] + body)
  {
    var b := [head] + body;
    forall i | 0 <= i < |b| - 1 ensures Adjacent(b[i], b[i + 1]) {
      if i > 0 {
        assert b[i] == body[i - 1] && b[i + 1] == body[i];
      }
    }
  }
}
