/** Texts as ropes of characters and as rows.

    The log edits texts by character ranges that it computes from row numbers, clipping at the end
    of the text. `Rows` is the row view of a text; the lemmas here say when replacing clipped
    character ranges is the same as splicing rows. */
module Ropes {
  import opened Patches

  type Row = string

  /** The rows of a text: one more than it has line feeds. */
  function Rows(s: string): (r: seq<Row>)
    ensures |r| > 0
  {
    if s == "" then [""]
    else if s[0] == '\n' then [""] + Rows(s[1..])
    else var r := Rows(s[1..]); [[s[0]] + r[0]] + r[1..]
  }

  function Join(rows: seq<Row>): string
    requires rows != []
  {
    if |rows| == 1 then rows[0] else rows[0] + "\n" + Join(rows[1..])
  }

  /** No row contains a line feed. */
  ghost predicate Plain(rows: seq<Row>) {
    forall r :: r in rows ==> '\n' !in r
  }

  /** `point_to_offset` of the start of a row; rows past the end clip to the length of the text. */
  function Offset(s: string, row: int): (o: nat)
    ensures o <= |s|
  {
    if row <= 0 || s == "" then 0
    else 1 + Offset(s[1..], if s[0] == '\n' then row - 1 else row)
  }

  // ------------------------------------------------------------------ rows and strings

  lemma {:induction false} JoinRows(s: string)
    ensures Join(Rows(s)) == s && Plain(Rows(s))
  {
    hide *;
    if s == "" {
      RowsOfNothing();
      JoinOne("");
    } else {
      RowsOf(s);
      JoinRows(s[1..]);
      JoinPush(s[0], Rows(s[1..]));
      assert s == [s[0]] + s[1..];
    }
  }

  lemma JoinOne(r: Row)
    requires '\n' !in r
    ensures Join([r]) == r && Plain([r])
  {
  }

  lemma JoinPush(c: char, rows: seq<Row>)
    requires rows != [] && Plain(rows)
    ensures Join(PushFront(c, rows)) == [c] + Join(rows) && Plain(PushFront(c, rows))
  {
    if c == '\n' {
      assert ([""] + rows)[1..] == rows;
      assert "" + "\n" + Join(rows) == [c] + Join(rows);
    } else {
      var r := [c] + rows[0];
      assert rows[0] in rows;
      assert ([r] + rows[1..])[1..] == rows[1..];
      if |rows| > 1 {
        assert [c] + (rows[0] + "\n" + Join(rows[1..])) == r + "\n" + Join(rows[1..]);
      }
    }
  }

  lemma RowsInjective(s: string, t: string)
    requires Rows(s) == Rows(t)
    ensures s == t
  {
    JoinRows(s);
    JoinRows(t);
  }

  /** The rows of a text with one more character in front. */
  function PushFront(c: char, rows: seq<Row>): seq<Row>
    requires rows != []
  {
    if c == '\n' then [""] + rows else [[c] + rows[0]] + rows[1..]
  }

  /** The rows of two texts put one after the other. */
  function Meet(p: seq<Row>, q: seq<Row>): seq<Row>
    requires p != [] && q != []
  {
    p[..|p| - 1] + [p[|p| - 1] + q[0]] + q[1..]
  }

  lemma RowsOfNothing()
    ensures Rows("") == [""]
  {
  }

  lemma RowsOf(s: string)
    requires s != ""
    ensures Rows(s) == PushFront(s[0], Rows(s[1..]))
  {
  }

  /** Where two texts meet, the last row of the first continues with the first row of the second. */
  lemma {:induction false} RowsConcat(x: string, y: string)
    ensures Rows(x + y) == Meet(Rows(x), Rows(y))
  {
    if x == "" {
      assert x + y == y;
      assert "" + Rows(y)[0] == Rows(y)[0];
      assert Meet([""], Rows(y)) == Rows(y);
    } else {
      assert (x + y)[1..] == x[1..] + y;
      RowsOf(x);
      RowsOf(x + y);
      hide Rows;
      RowsConcat(x[1..], y);
      PushMeet(x[0], Rows(x[1..]), Rows(y));
    }
  }

  lemma PushMeet(c: char, p: seq<Row>, q: seq<Row>)
    requires p != [] && q != []
    ensures PushFront(c, Meet(p, q)) == Meet(PushFront(c, p), q)
  {
    hide *;
    var u, l, v := p[..|p| - 1], p[|p| - 1], [p[|p| - 1] + q[0]] + q[1..];
    MeetAt(u, l, q);
    LastOf(p);
    if u == [] {
      PushOne(c, l, q);
    } else {
      PushMore(c, u, v);
      PushMore(c, u, [l]);
      MeetAt(PushFront(c, u), l, q);
    }
  }

  lemma LastOf(p: seq<Row>)
    requires p != []
    ensures p == p[..|p| - 1] + [p[|p| - 1]]
  {
  }

  lemma MeetAt(u: seq<Row>, l: Row, q: seq<Row>)
    requires q != []
    ensures Meet(u + [l], q) == u + ([l + q[0]] + q[1..])
  {
    assert (u + [l])[..|u|] == u;
  }

  lemma PushMore(c: char, u: seq<Row>, v: seq<Row>)
    requires u != []
    ensures PushFront(c, u) != [] && PushFront(c, u + v) == PushFront(c, u) + v
  {
    assert (u + v)[0] == u[0] && (u + v)[1..] == u[1..] + v;
    if c == '\n' {
      Assoc([""], u, v);
    } else {
      Assoc([[c] + u[0]], u[1..], v);
    }
  }

  lemma PushOne(c: char, l: Row, q: seq<Row>)
    requires q != []
    ensures PushFront(c, Meet([] + [l], q)) == Meet(PushFront(c, [] + [l]), q)
  {
    MeetAt([], l, q);
    var v := [l + q[0]] + q[1..];
    assert [] + [l] == [l] && [] + v == v;
    if c == '\n' {
      MeetAt([""], l, q);
    } else {
      MeetAt([], [c] + l, q);
      assert [l][1..] == [] && v[0] == l + q[0] && v[1..] == q[1..];
      assert [c] + (l + q[0]) == ([c] + l) + q[0];
    }
  }

  /** A text that ends a row, followed by another text. */
  lemma RowsAfterBreak(x: string, rows: seq<Row>, y: string)
    requires Rows(x) == rows + [""]
    ensures Rows(x + y) == rows + Rows(y)
  {
    hide Rows;
    RowsConcat(x, y);
    assert Rows(x)[..|rows|] == rows;
    assert "" + Rows(y)[0] == Rows(y)[0];
    assert Rows(y) == [Rows(y)[0]] + Rows(y)[1..];
  }

  // ------------------------------------------------------------------ row offsets

  /** A real row starts right after a line feed, or at the beginning. */
  lemma {:induction false} AtOffset(s: string, row: int)
    requires 0 <= row < |Rows(s)|
    ensures Rows(s[..Offset(s, row)]) == Rows(s)[..row] + [""]
    ensures Rows(s[Offset(s, row)..]) == Rows(s)[row..]
  {
    var o := Offset(s, row);
    if row == 0 {
      assert s[..o] == "" && s[o..] == s;
    } else {
      var row' := if s[0] == '\n' then row - 1 else row;
      var s' := s[1..];
      assert s[..o][1..] == s'[..o - 1] && s[o..] == s'[o - 1..];
      assert o == 1 + Offset(s', row');
      RowsOf(s);
      RowsOf(s[..o]);
      hide Rows, Offset;
      AtOffset(s', row');
      PushTake(s[0], Rows(s'), row');
    }
  }

  lemma PushTake(c: char, p: seq<Row>, n: int)
    requires 0 <= n < |p| && (c == '\n' || n > 0)
    ensures var n' := if c == '\n' then n + 1 else n;
            && PushFront(c, p[..n] + [""]) == PushFront(c, p)[..n'] + [""]
            && PushFront(c, p)[n'..] == p[n..]
  {
    if c != '\n' {
      assert (p[..n] + [""])[0] == p[0] && (p[..n] + [""])[1..] == p[1..n] + [""];
    }
  }

  lemma {:induction false} OffsetPastEnd(s: string, row: int)
    requires row >= |Rows(s)|
    ensures Offset(s, row) == |s|
  {
    if s != "" {
      OffsetPastEnd(s[1..], if s[0] == '\n' then row - 1 else row);
    }
  }

  lemma {:induction false} OffsetAdd(s: string, row: int, n: nat)
    requires row >= 0
    ensures Offset(s, row + n) == Offset(s, row) + Offset(s[Offset(s, row)..], n)
  {
    if row == 0 {
      assert s[0..] == s;
    } else if s != "" {
      OffsetAdd(s[1..], if s[0] == '\n' then row - 1 else row, n);
      assert s[Offset(s, row)..] == s[1..][Offset(s, row) - 1..];
    }
  }

  /** The rows of the characters between two row starts. */
  lemma SliceRows(s: string, r: Range)
    requires 0 <= r.start <= r.end <= |Rows(s)| && r.start < |Rows(s)|
    ensures Offset(s, r.start) <= Offset(s, r.end)
    ensures Rows(s[Offset(s, r.start)..Offset(s, r.end)])
            == if r.end < |Rows(s)| then Rows(s)[r.start..r.end] + [""] else Rows(s)[r.start..]
  {
    hide Rows, Offset;
    var o := Offset(s, r.start);
    var n := r.end - r.start;
    AtOffset(s, r.start);
    OffsetAdd(s, r.start, n);
    var rest := s[o..];
    assert rest[..Offset(rest, n)] == s[o..Offset(s, r.end)];
    if r.end < |Rows(s)| {
      AtOffset(rest, n);
      assert Rows(s)[r.start..][..n] == Rows(s)[r.start..r.end];
    } else {
      OffsetPastEnd(s, r.end);
      assert s[o..|s|] == rest;
    }
  }

  // ------------------------------------------------------------------ replacing rows

  /** The characters of the rows `r`, clipped at the end of the text. */
  function RowText(s: string, r: Range): string {
    var x, y := Offset(s, r.start), Offset(s, r.end);
    if x <= y then s[x..y] else ""
  }

  /** `Rope::replace` on the clipped characters of the rows `r`. */
  function ReplaceRows(s: string, r: Range, w: string): string {
    s[..Offset(s, r.start)] + w + s[Offset(s, r.end)..]
  }

  /** What makes replacing characters the same as splicing rows: an empty replacement must leave
      rows behind, a nonempty one must reach the last row on both sides or on neither. */
  predicate EndsAgree(r: Range, n: int, q: Range, m: int) {
    if q.IsEmpty() then r.end < n else (r.end == n <==> q.end == m)
  }

  /** The rows after replacing rows `r` of `s` by the characters of rows `q` of `t`. */
  lemma ReplacedRows(s: string, r: Range, t: string, q: Range)
    requires 0 <= r.start <= r.end <= |Rows(s)| && r.start < |Rows(s)|
    requires 0 <= q.start <= q.end <= |Rows(t)|
    ensures var (a, b, w) := (Rows(s)[..r.start], Rows(s)[r.end..], Rows(t)[q.start..q.end]);
            var res := Rows(ReplaceRows(s, r, RowText(t, q)));
            if q.IsEmpty() || q.end < |Rows(t)| then res == a + w + (if b == [] then [""] else b)
            else if b == [] then res == a + w
            else res == a + w[..|w| - 1] + [w[|w| - 1] + b[0]] + b[1..]
  {
    hide Rows, Offset;
    var (a, b, w) := (Rows(s)[..r.start], Rows(s)[r.end..], Rows(t)[q.start..q.end]);
    var pre, suf := s[..Offset(s, r.start)], s[Offset(s, r.end)..];
    var mid := RowText(t, q);
    AtOffset(s, r.start);
    RowsOfRest(s, r.end);
    if q.IsEmpty() {
      EmptyRows(t, q);
      assert pre + mid == pre && a + w == a;
      RowsAfterBreak(pre, a, suf);
    } else {
      SliceRows(t, q);
      RowsAfterBreak(pre, a, mid);
      if q.end < |Rows(t)| {
        Assoc(a, w, [""]);
        RowsAfterBreak(pre + mid, a + w, suf);
      } else {
        assert Rows(t)[q.start..] == w;
        RowsConcat(pre + mid, suf);
        MeetLast(a, w, Rows(suf));
      }
    }
  }

  lemma RowsOfRest(s: string, row: int)
    requires 0 <= row <= |Rows(s)|
    ensures var b := Rows(s)[row..]; Rows(s[Offset(s, row)..]) == if b == [] then [""] else b
  {
    if row < |Rows(s)| {
      AtOffset(s, row);
    } else {
      OffsetPastEnd(s, row);
    }
  }

  lemma EmptyRows(t: string, q: Range)
    requires q.end <= q.start
    ensures RowText(t, q) == ""
  {
    OffsetMonotonic(t, q.end, q.start);
  }

  lemma {:induction false} OffsetMonotonic(s: string, row: int, row': int)
    requires row <= row'
    ensures Offset(s, row) <= Offset(s, row')
  {
    if row > 0 && s != "" {
      var d := if s[0] == '\n' then 1 else 0;
      OffsetMonotonic(s[1..], row - d, row' - d);
    }
  }

  lemma MeetLast(a: seq<Row>, w: seq<Row>, b: seq<Row>)
    requires w != [] && b != []
    ensures Meet(a + w, b) == a + w[..|w| - 1] + [w[|w| - 1] + b[0]] + b[1..]
    ensures b == [""] ==> Meet(a + w, b) == a + w
  {
    assert (a + w)[..|a + w| - 1] == a + w[..|w| - 1];
    if b == [""] {
      assert w == w[..|w| - 1] + [w[|w| - 1]];
      assert w[|w| - 1] + "" == w[|w| - 1];
    }
  }

  /** Replacing characters equals splicing rows exactly when the ends agree. */
  lemma ReplaceIsSplice(s: string, r: Range, t: string, q: Range)
    requires 0 <= r.start <= r.end <= |Rows(s)| && r.start < |Rows(s)|
    requires 0 <= q.start <= q.end <= |Rows(t)|
    ensures Rows(ReplaceRows(s, r, RowText(t, q))) == Splice(Rows(s), r, Rows(t)[q.start..q.end])
            <==> EndsAgree(r, |Rows(s)|, q, |Rows(t)|)
  {
    hide Rows, ReplaceRows, RowText;
    ReplacedRows(s, r, t, q);
  }

  /** Inserting past the last row never splices rows when the inserted rows reach the end of their
      text: the inserted text would be glued to the last row. */
  lemma InsertPastEnd(s: string, t: string, q: Range)
    requires 0 <= q.start < q.end == |Rows(t)|
    ensures var n := |Rows(s)|;
            Rows(ReplaceRows(s, Range(n, n), RowText(t, q))) != Splice(Rows(s), Range(n, n), Rows(t)[q.start..q.end])
  {
    hide Rows;
    var n := |Rows(s)|;
    OffsetPastEnd(s, n);
    SliceRows(t, q);
    assert s[..|s|] == s && s[|s|..] == "";
    assert s + RowText(t, q) + "" == s + RowText(t, q);
    RowsConcat(s, RowText(t, q));
  }
}
