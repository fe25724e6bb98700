/** The strip-scattered chunk writer: which source byte every byte of every chunk
    file comes from. A byte that no copy supplies reads as zero. */
module StripWriter {
  import opened Basics
  import B = BlockSplit

  const ALIGN: nat := 4096

  /** A run of a source file holding bytes [inOff, inOff + len) of an item. */
  datatype Seg = Seg(file: nat, off: nat, len: nat, inOff: nat)

  /** An item at a logical offset inside its unit. */
  datatype Item = Item(logOff: nat, len: nat, srcs: seq<Seg>)

  datatype Unit = Unit(off: nat, size: nat, content: seq<Item>)

  datatype Op = Op(file: nat, src: nat, len: nat, dst: nat)

  datatype Fill = Fill(dst: nat, len: nat)

  /** One byte of a source file. */
  datatype Loc = Loc(file: nat, pos: nat)

  // ---- which source byte ------------------------------------------------------------

  /** The byte of an item at relative offset r: from the last segment that holds it. */
  function SegAt(srcs: seq<Seg>, r: int): Option<Loc> {
    if srcs == [] then None
    else
      var g := srcs[|srcs| - 1];
      if g.inOff <= r < g.inOff + g.len then Some(Loc(g.file, g.off + (r - g.inOff)))
      else SegAt(srcs[..|srcs| - 1], r)
  }

  /** The byte of a unit at logical offset x: from the last item that supplies it. */
  function SourceAt(content: seq<Item>, x: int): Option<Loc> {
    if content == [] then None
    else
      var it := content[|content| - 1];
      if it.logOff <= x < it.logOff + it.len && SegAt(it.srcs, x - it.logOff).Some? then SegAt(it.srcs, x - it.logOff)
      else SourceAt(content[..|content| - 1], x)
  }

  /** The source byte a list of copies leaves at position pos: the last copy wins. */
  function Landed(ops: seq<Op>, pos: int): Option<Loc> {
    if ops == [] then None
    else
      var o := ops[|ops| - 1];
      if o.dst <= pos < o.dst + o.len then Some(Loc(o.file, o.src + (pos - o.dst)))
      else Landed(ops[..|ops| - 1], pos)
  }

  predicate Filled(fills: seq<Fill>, pos: int) {
    exists i :: 0 <= i < |fills| && fills[i].dst <= pos < fills[i].dst + fills[i].len
  }

  lemma {:induction false} LandedConcat(a: seq<Op>, b: seq<Op>, pos: int)
    ensures Landed(a + b, pos) == if Landed(b, pos).Some? then Landed(b, pos) else Landed(a, pos)
  {
    if b == [] {
      assert a + b == a;
    } else {
      assert (a + b)[..|a + b| - 1] == a + b[..|b| - 1];
      LandedConcat(a, b[..|b| - 1], pos);
    }
  }

  /** All copies write inside [lo, hi). */
  ghost predicate Inside(ops: seq<Op>, lo: int, hi: int) {
    forall i :: 0 <= i < |ops| ==> lo <= ops[i].dst && ops[i].dst + ops[i].len <= hi
  }

  lemma {:induction false} NothingOutside(ops: seq<Op>, lo: int, hi: int, pos: int)
    requires Inside(ops, lo, hi) && (pos < lo || pos >= hi)
    ensures Landed(ops, pos) == None
  {
    if ops != [] { NothingOutside(ops[..|ops| - 1], lo, hi, pos); }
  }

  // ---- no byte copied twice ------------------------------------------------------------

  predicate Apart(lo: int, hi: int, lo': int, hi': int) {
    hi <= lo' || hi' <= lo
  }

  ghost predicate CleanSrcs(srcs: seq<Seg>) {
    forall i, j ::
        0 <= i < j < |srcs| ==>
            Apart(srcs[i].inOff, srcs[i].inOff + srcs[i].len, srcs[j].inOff, srcs[j].inOff + srcs[j].len)
  }

  /** Items do not overlap, nor do the segments of an item. */
  ghost predicate Clean(content: seq<Item>) {
    && (forall i :: 0 <= i < |content| ==> CleanSrcs(content[i].srcs))
    && forall i, j :: 0 <= i < j < |content| ==>
         Apart(content[i].logOff, content[i].logOff + content[i].len, content[j].logOff,
             content[j].logOff + content[j].len)
  }

  /** No position is written by two copies. */
  ghost predicate Separate(ops: seq<Op>) {
    forall i, j ::
        0 <= i < j < |ops| ==> Apart(ops[i].dst, ops[i].dst + ops[i].len, ops[j].dst, ops[j].dst + ops[j].len)
  }

  ghost predicate AllApart(ops: seq<Op>, lo: int, hi: int) {
    forall i :: 0 <= i < |ops| ==> Apart(ops[i].dst, ops[i].dst + ops[i].len, lo, hi)
  }

  lemma SeparateConcat(a: seq<Op>, b: seq<Op>, lo: int, hi: int)
    requires Separate(a) && Separate(b) && Inside(b, lo, hi) && AllApart(a, lo, hi)
    ensures Separate(a + b)
  {
  }

  // ---- content_to_ops ------------------------------------------------------------------

  function Max(a: int, b: int): int { if a > b then a else b }
  function Min(a: int, b: int): int { if a < b then a else b }

  /** Every byte of [start, start + len) lands at its place, nothing else is written. */
  ghost predicate Mapped(content: seq<Item>, start: nat, len: nat, base: nat, ops: seq<Op>) {
    && Inside(ops, base, base + len)
    && forall pos :: base <= pos < base + len ==> Landed(ops, pos) == SourceAt(content, pos - base + start)
  }

  /** The segments of one item, clipped to [s, e) of the unit. */
  method SegsToOps(it: Item, s: nat, e: nat, start: nat, base: nat) returns (ops: seq<Op>)
    requires it.logOff <= s <= e <= it.logOff + it.len && start <= s
    ensures Inside(ops, base + (s - start), base + (e - start))
    ensures CleanSrcs(it.srcs) ==> Separate(ops)
    ensures forall pos ::
              base + s <= pos + start < base + e ==> Landed(ops, pos) == SegAt(it.srcs, pos - base + start - it.logOff)
  {
    var relStart, relEnd := s - it.logOff, e - it.logOff;
    ops := [];
    for n := 0 to |it.srcs|
      invariant Inside(ops, base + (s - start), base + (e - start))
      invariant CleanSrcs(it.srcs) ==> Separate(ops)
      invariant CleanSrcs(it.srcs) ==> forall m :: n <= m < |it.srcs| ==>
                  AllApart(ops, base + it.logOff - start + it.srcs[m].inOff,
                      base + it.logOff - start + it.srcs[m].inOff + it.srcs[m].len)
      invariant forall pos ::
                  base + s <= pos + start < base + e ==>
                      Landed(ops, pos) == SegAt(it.srcs[..n], pos - base + start - it.logOff)
    {
      var g := it.srcs[n];
      assert it.srcs[..n + 1][..n] == it.srcs[..n];
      var ssEnd := g.inOff + g.len;
      if !(ssEnd <= relStart || g.inOff >= relEnd) {
        var a, b := Max(relStart, g.inOff), Min(relEnd, ssEnd);
        var op := Op(g.file, g.off + (a - g.inOff), b - a, base + (s - start) + (a - relStart));
        assert (ops + [op])[..|ops|] == ops;
        ops := ops + [op];
      }
    }
    assert it.srcs[..|it.srcs|] == it.srcs;
  }

  /** content_to_ops: the copies that put [start, start + len) of a unit at base. */
  method ContentToOps(content: seq<Item>, start: nat, len: nat, base: nat) returns (ops: seq<Op>)
    ensures Mapped(content, start, len, base, ops)
    ensures Clean(content) ==> Separate(ops)
  {
    ops := [];
    for n := 0 to |content|
      invariant Mapped(content[..n], start, len, base, ops)
      invariant Clean(content) ==> Separate(ops)
      invariant Clean(content) ==> forall m :: n <= m < |content| ==>
                  AllApart(ops, base + content[m].logOff - start, base + content[m].logOff - start + content[m].len)
    {
      var it := content[n];
      assert content[..n + 1][..n] == content[..n];
      if !(it.logOff + it.len <= start || it.logOff >= start + len) {
        var s, e := Max(start, it.logOff), Min(start + len, it.logOff + it.len);
        var more := SegsToOps(it, s, e, start, base);
        ItemLands(content, n, start, len, base, s, e, ops, more);
        ItemApart(content, n, start, base, s, e, ops, more);
        ops := ops + more;
      }
    }
    assert content[..|content|] == content;
  }

  lemma ItemApart(content: seq<Item>, n: nat, start: nat, base: nat, s: nat, e: nat, ops: seq<Op>, more: seq<Op>)
    requires n < |content| && content[n].logOff <= s <= e <= content[n].logOff + content[n].len
    requires Inside(more, base + (s - start), base + (e - start)) && (CleanSrcs(content[n].srcs) ==> Separate(more))
    requires Clean(content) ==> Separate(ops)
    requires Clean(content) ==> forall m :: n <= m < |content| ==>
               AllApart(ops, base + content[m].logOff - start, base + content[m].logOff - start + content[m].len)
    ensures Clean(content) ==> Separate(ops + more)
    ensures Clean(content) ==> forall m :: n + 1 <= m < |content| ==>
              AllApart(ops + more, base + content[m].logOff - start, base + content[m].logOff - start + content[m].len)
  {
    if Clean(content) {
      assert AllApart(ops, base + content[n].logOff - start, base + content[n].logOff - start + content[n].len);
      SeparateConcat(ops, more, base + content[n].logOff - start, base + content[n].logOff - start + content[n].len);
    }
  }

  lemma ItemLands(content: seq<Item>, n: nat, start: nat, len: nat, base: nat, s: nat, e: nat, ops: seq<Op>,
                  more: seq<Op>)
    requires n < |content| && Mapped(content[..n], start, len, base, ops)
    requires s == Max(start, content[n].logOff) && e == Min(start + len, content[n].logOff + content[n].len) && s <= e
    requires Inside(more, base + (s - start), base + (e - start))
    requires forall pos ::
               base + s <= pos + start < base + e ==>
                   Landed(more, pos) == SegAt(content[n].srcs, pos - base + start - content[n].logOff)
    ensures Mapped(content[..n + 1], start, len, base, ops + more)
  {
    assert content[..n + 1][..n] == content[..n];
    forall pos | base <= pos < base + len ensures Landed(ops + more, pos) ==
        SourceAt(content[..n + 1], pos - base + start) {
      LandedConcat(ops, more, pos);
      if pos - base + start < s || pos - base + start >= e {
        NothingOutside(more, base + (s - start), base + (e - start), pos);
      }
    }
  }

  // ---- fills ---------------------------------------------------------------------------

  datatype Span = Span(lo: nat, hi: nat)

  ghost predicate SpansCover(spans: seq<Span>, pos: int) {
    exists i :: 0 <= i < |spans| && spans[i].lo <= pos < spans[i].hi
  }

  /** std::sort of the covered ranges by start. */
  method SortSpans(xs: seq<Span>) returns (r: seq<Span>)
    ensures forall i, j :: 0 <= i < j < |r| ==> r[i].lo <= r[j].lo
    ensures forall x :: x in r <==> x in xs
  {
    r := [];
    for n := 0 to |xs|
      invariant forall i, j :: 0 <= i < j < |r| ==> r[i].lo <= r[j].lo
      invariant forall x :: x in r <==> x in xs[..n]
    {
      var j := |r|;
      while j > 0 && (r[j - 1].lo > xs[n].lo || (r[j - 1].lo == xs[n].lo && r[j - 1].hi > xs[n].hi))
        invariant 0 <= j <= |r| && forall i :: j <= i < |r| ==> r[i].lo >= xs[n].lo
      {
        j := j - 1;
      }
      assert xs[..n + 1] == xs[..n] + [xs[n]];
      InsertMembers(r, xs[n], j);
      r := r[..j] + [xs[n]] + r[j..];
    }
    assert xs[..|xs|] == xs;
  }

  /** fills are in order, apart, and inside [lo, hi). */
  ghost predicate FillsInside(fills: seq<Fill>, lo: int, hi: int) {
    && (forall i :: 0 <= i < |fills| ==> fills[i].len > 0 && lo <= fills[i].dst && fills[i].dst + fills[i].len <= hi)
    && (forall i, j :: 0 <= i < j < |fills| ==> fills[i].dst + fills[i].len <= fills[j].dst)
  }

  /** The complement of the covered ranges within the strip. */
  method Complement(covered: seq<Span>, base: nat, stripLen: nat) returns (fills: seq<Fill>)
    requires forall i :: 0 <= i < |covered| ==> covered[i].lo <= covered[i].hi <= stripLen
    ensures FillsInside(fills, base, base + stripLen)
    ensures forall pos :: base <= pos < base + stripLen ==> (Filled(fills, pos) <==> !SpansCover(covered, pos - base))
  {
    var sorted := SortSpans(covered);
    forall i | 0 <= i < |sorted| ensures sorted[i].lo <= sorted[i].hi <= stripLen {
      assert sorted[i] in sorted;
    }
    SameCover(sorted, covered);
    hide FillsInside, Filled, SpansCover;
    fills := [];
    var cursor: nat := 0;
    NoFills(base);
    for n := 0 to |sorted|
      invariant cursor <= stripLen && Swept(sorted, fills, base, cursor)
      invariant forall i :: 0 <= i < n ==> sorted[i].hi <= cursor
    {
      var c := sorted[n];
      if c.lo > cursor {
        FillGap(sorted, n, fills, base, cursor, c.lo);
        fills := fills + [Fill(base + cursor, c.lo - cursor)];
      }
      CoverTo(sorted, n, fills, base, if c.lo > cursor then c.lo else cursor);
      cursor := if cursor > c.hi then cursor else c.hi;
    }
    if cursor < stripLen {
      FillGap(sorted, |sorted|, fills, base, cursor, stripLen);
      fills := fills + [Fill(base + cursor, stripLen - cursor)];
    }
  }

  /** Up to the cursor the fills are exactly what the ranges leave out. */
  ghost predicate Swept(sorted: seq<Span>, fills: seq<Fill>, base: nat, cursor: nat) {
    && FillsInside(fills, base, base + cursor)
    && forall pos :: base <= pos < base + cursor ==> (Filled(fills, pos) <==> !SpansCover(sorted, pos - base))
  }

  lemma NoFills(base: nat)
    ensures FillsInside([], base, base)
  {
  }

  lemma SameCover(a: seq<Span>, b: seq<Span>)
    requires forall x :: x in a <==> x in b
    ensures forall y :: SpansCover(a, y) <==> SpansCover(b, y)
  {
    forall y ensures SpansCover(a, y) <==> SpansCover(b, y) {
      if i :| 0 <= i < |a| && a[i].lo <= y < a[i].hi {
        assert a[i] in b;
        var j :| 0 <= j < |b| && b[j] == a[i];
      }
      if i :| 0 <= i < |b| && b[i].lo <= y < b[i].hi {
        assert b[i] in a;
        var j :| 0 <= j < |a| && a[j] == b[i];
      }
    }
  }

  /** Nothing covers the gap between the cursor and the next range. */
  lemma NothingBetween(sorted: seq<Span>, n: nat, cursor: nat, to: nat, y: int)
    requires n <= |sorted| && forall i, j :: 0 <= i < j < |sorted| ==> sorted[i].lo <= sorted[j].lo
    requires (forall i :: 0 <= i < n ==> sorted[i].hi <= cursor) && (n < |sorted| ==> sorted[n].lo >= to)
    requires cursor <= y < to
    ensures !SpansCover(sorted, y)
  {
    forall i | 0 <= i < |sorted| ensures !(sorted[i].lo <= y < sorted[i].hi) {
      if i > n { assert sorted[n].lo <= sorted[i].lo; }
    }
  }

  lemma FilledSnoc(fills: seq<Fill>, f: Fill, pos: int)
    ensures Filled(fills + [f], pos) <==> Filled(fills, pos) || f.dst <= pos < f.dst + f.len
  {
    var more := fills + [f];
    if i :| 0 <= i < |fills| && fills[i].dst <= pos < fills[i].dst + fills[i].len {
      assert more[i] == fills[i];
    }
    assert more[|fills|] == f;
  }

  lemma NotFilledBeyond(fills: seq<Fill>, lo: int, hi: int, pos: int)
    requires FillsInside(fills, lo, hi) && pos >= hi
    ensures !Filled(fills, pos)
  {
  }

  /** The gap up to the next range becomes a fill. */
  lemma FillGap(sorted: seq<Span>, n: nat, fills: seq<Fill>, base: nat, cursor: nat, to: nat)
    requires n <= |sorted| && cursor < to && forall i, j :: 0 <= i < j < |sorted| ==> sorted[i].lo <= sorted[j].lo
    requires (forall i :: 0 <= i < n ==> sorted[i].hi <= cursor) && (n < |sorted| ==> sorted[n].lo >= to)
    requires Swept(sorted, fills, base, cursor)
    ensures Swept(sorted, fills + [Fill(base + cursor, to - cursor)], base, to)
  {
    var f := Fill(base + cursor, to - cursor);
    forall pos | base <= pos < base + to ensures Filled(fills + [f], pos) <==> !SpansCover(sorted, pos - base) {
      FilledSnoc(fills, f, pos);
      if pos >= base + cursor { NothingBetween(sorted, n, cursor, to, pos - base); }
    }
  }

  /** From the start of a range up to its end everything is covered. */
  lemma CoverTo(sorted: seq<Span>, n: nat, fills: seq<Fill>, base: nat, cursor: nat)
    requires n < |sorted| && sorted[n].lo <= cursor && Swept(sorted, fills, base, cursor)
    ensures Swept(sorted, fills, base, if cursor > sorted[n].hi then cursor else sorted[n].hi)
  {
    forall pos | base + cursor <= pos < base + sorted[n].hi ensures SpansCover(sorted, pos - base) &&
        !Filled(fills, pos) {
      NotFilledBeyond(fills, base, base + cursor, pos);
    }
  }

  // ---- one strip -------------------------------------------------------------------------

  /** Copies and fills for a strip: every byte is supplied as the unit says, and the
      fills are exactly the bytes no copy supplies. */
  ghost predicate StripOk(content: seq<Item>, logStart: nat, stripLen: nat, base: nat, ops: seq<Op>, fills: seq<Fill>) {
    && Mapped(content, logStart, stripLen, base, ops) && FillsInside(fills, base, base + stripLen)
    && forall pos :: base <= pos < base + stripLen ==> (Filled(fills, pos) <==> Landed(ops, pos) == None)
  }

  lemma {:induction false} CoveredIsLanded(ops: seq<Op>, covered: seq<Span>, base: nat, pos: int)
    requires |covered| == |ops| &&
               forall k ::
                   0 <= k < |ops| ==>
                       ops[k].dst >= base && covered[k] == Span(ops[k].dst - base, ops[k].dst - base + ops[k].len)
    ensures SpansCover(covered, pos - base) <==> Landed(ops, pos).Some?
  {
    if ops != [] {
      var n := |ops| - 1;
      CoveredIsLanded(ops[..n], covered[..n], base, pos);
      if i :| 0 <= i < n && covered[..n][i].lo <= pos - base < covered[..n][i].hi {
        assert covered[i] == covered[..n][i];
      }
      if i :| 0 <= i < |covered| && covered[i].lo <= pos - base < covered[i].hi {
        if i < n { assert covered[..n][i] == covered[i]; }
      }
      assert covered[n].lo <= pos - base < covered[n].hi <==> ops[n].dst <= pos < ops[n].dst + ops[n].len;
    }
  }

  method PlanStrip(content: seq<Item>, logStart: nat, stripLen: nat, base: nat) returns (ops: seq<Op>, fills: seq<Fill>)
    ensures StripOk(content, logStart, stripLen, base, ops, fills)
    ensures Clean(content) ==> Separate(ops)
  {
    ops := ContentToOps(content, logStart, stripLen, base);
    var covered: seq<Span> := [];
    for k := 0 to |ops|
      invariant |covered| == k
      invariant forall j ::
                  0 <= j < k ==>
                      ops[j].dst >= base && covered[j] == Span(ops[j].dst - base, ops[j].dst - base + ops[j].len)
    {
      var d := ops[k].dst - base;
      covered := covered + [Span(d, d + ops[k].len)];
    }
    fills := Complement(covered, base, stripLen);
    forall pos | base <= pos < base + stripLen ensures Filled(fills, pos) <==> Landed(ops, pos) == None {
      CoveredIsLanded(ops, covered, base, pos);
    }
  }

  // ---- one chunk file ----------------------------------------------------------------------

  datatype File = File(ops: seq<Op>, fills: seq<Fill>)

  /** Blocks of file i before unit u. */
  function Cum(slices: seq<seq<nat>>, i: nat, u: nat): nat
    requires u <= |slices| && forall v :: 0 <= v < |slices| ==> i < |slices[v]|
  {
    if u == 0 then 0 else Cum(slices, i, u - 1) + slices[u - 1][i]
  }

  /** Logical start of file i's strip inside a unit. */
  function LogStart(counts: seq<nat>, i: nat): nat
    requires i <= |counts|
  {
    Sum(counts[..i]) * ALIGN
  }

  ghost predicate SlicesFit(slices: seq<seq<nat>>, nUnits: nat, n: nat) {
    |slices| == nUnits && forall u :: 0 <= u < nUnits ==> |slices[u]| == n
  }

  /** File i after the strips of the first m units. */
  ghost predicate FileOk(units: seq<Unit>, slices: seq<seq<nat>>, n: nat, i: nat, m: nat, file: File)
    requires SlicesFit(slices, |units|, n) && i < n && m <= |units|
  {
    && Inside(file.ops, 0, Cum(slices, i, m) * ALIGN)
    && FillsInside(file.fills, 0, Cum(slices, i, m) * ALIGN)
    && forall u :: 0 <= u < m ==> StripInFile(units, slices, n, i, u, file)
  }

  /** Bytes [logStart, logStart + len) of a unit lie at base in the file; the fills
      are exactly the bytes no copy supplies. */
  ghost predicate StripAt(file: File, base: nat, len: nat, content: seq<Item>, logStart: nat) {
    forall pos :: base <= pos < base + len ==>
      && Landed(file.ops, pos) == SourceAt(content, pos - base + logStart)
      && (Filled(file.fills, pos) <==> Landed(file.ops, pos) == None)
  }

  /** The strip of unit u lies at its place in file i. */
  ghost predicate StripInFile(units: seq<Unit>, slices: seq<seq<nat>>, n: nat, i: nat, u: nat, file: File)
    requires SlicesFit(slices, |units|, n) && i < n && u < |units|
  {
    StripAt(file, Cum(slices, i, u) * ALIGN, slices[u][i] * ALIGN, units[u].content, LogStart(slices[u], i))
  }

  lemma {:induction false} CumGrows(slices: seq<seq<nat>>, i: nat, u: nat, m: nat)
    requires u < m <= |slices| && forall v :: 0 <= v < |slices| ==> i < |slices[v]|
    ensures Cum(slices, i, u) + slices[u][i] <= Cum(slices, i, m)
  {
    if u + 1 < m { CumGrows(slices, i, u, m - 1); }
  }

  lemma {:induction false} FilledConcat(a: seq<Fill>, b: seq<Fill>, pos: int)
    ensures Filled(a + b, pos) <==> Filled(a, pos) || Filled(b, pos)
  {
    var c := a + b;
    if i :| 0 <= i < |a| && a[i].dst <= pos < a[i].dst + a[i].len { assert c[i] == a[i]; }
    if i :| 0 <= i < |b| && b[i].dst <= pos < b[i].dst + b[i].len { assert c[|a| + i] == b[i]; }
    if i :| 0 <= i < |c| && c[i].dst <= pos < c[i].dst + c[i].len {
      if i < |a| { assert a[i] == c[i]; } else { assert b[i - |a|] == c[i]; }
    }
  }

  lemma NotFilledOutside(fills: seq<Fill>, lo: int, hi: int, pos: int)
    requires FillsInside(fills, lo, hi) && (pos < lo || pos >= hi)
    ensures !Filled(fills, pos)
  {
  }

  /** A later strip leaves an earlier one as it is. */
  lemma OldStrip(file: File, b: nat, n: nat, content: seq<Item>, logStart: nat, ops: seq<Op>, fills: seq<Fill>,
                 base: nat, len: nat)
    requires StripAt(file, b, n, content, logStart) && b + n <= base
    requires Inside(ops, base, base + len) && FillsInside(fills, base, base + len)
    ensures StripAt(File(file.ops + ops, file.fills + fills), b, n, content, logStart)
  {
    hide FillsInside, Inside, SourceAt, Landed, Filled;
    forall pos | b <= pos < b + n
      ensures Landed(file.ops + ops, pos) == Landed(file.ops, pos) &&
                (Filled(file.fills + fills, pos) <==> Filled(file.fills, pos))
    {
      LandedConcat(file.ops, ops, pos);
      FilledConcat(file.fills, fills, pos);
      NothingOutside(ops, base, base + len, pos);
      NotFilledOutside(fills, base, base + len, pos);
    }
  }

  /** The strip just planned lies after all earlier ones. */
  lemma NewStrip(file: File, content: seq<Item>, logStart: nat, ops: seq<Op>, fills: seq<Fill>, base: nat, len: nat)
    requires Inside(file.ops, 0, base) && FillsInside(file.fills, 0, base) &&
               StripOk(content, logStart, len, base, ops, fills)
    ensures StripAt(File(file.ops + ops, file.fills + fills), base, len, content, logStart)
  {
    hide FillsInside, Inside, SourceAt, Landed, Filled;
    forall pos | base <= pos < base + len
      ensures Landed(file.ops + ops, pos) == Landed(ops, pos) &&
                (Filled(file.fills + fills, pos) <==> Filled(fills, pos))
    {
      LandedConcat(file.ops, ops, pos);
      FilledConcat(file.fills, fills, pos);
      NothingOutside(file.ops, 0, base, pos);
      NotFilledOutside(file.fills, 0, base, pos);
    }
  }

  lemma InsideConcat(a: seq<Op>, b: seq<Op>, fa: seq<Fill>, fb: seq<Fill>, base: nat, len: nat)
    requires Inside(a, 0, base) && Inside(b, base, base + len) && FillsInside(fa, 0, base) &&
               FillsInside(fb, base, base + len)
    ensures Inside(a + b, 0, base + len) && FillsInside(fa + fb, 0, base + len)
  {
  }

  lemma ScaleSum(slices: seq<seq<nat>>, i: nat, m: nat)
    requires m < |slices| && forall v :: 0 <= v < |slices| ==> i < |slices[v]|
    ensures Cum(slices, i, m + 1) * ALIGN == Cum(slices, i, m) * ALIGN + slices[m][i] * ALIGN
  {
  }

  lemma StripBounds(content: seq<Item>, logStart: nat, len: nat, base: nat, ops: seq<Op>, fills: seq<Fill>)
    requires StripOk(content, logStart, len, base, ops, fills)
    ensures Inside(ops, base, base + len) && FillsInside(fills, base, base + len)
  {
  }

  lemma CumBefore(slices: seq<seq<nat>>, i: nat, u: nat, m: nat)
    requires u < m <= |slices| && forall v :: 0 <= v < |slices| ==> i < |slices[v]|
    ensures Cum(slices, i, u) * ALIGN + slices[u][i] * ALIGN <= Cum(slices, i, m) * ALIGN
  {
    CumGrows(slices, i, u, m);
  }

  lemma OldStrips(units: seq<Unit>, slices: seq<seq<nat>>, n: nat, i: nat, m: nat, file: File, ops: seq<Op>,
                  fills: seq<Fill>)
    requires SlicesFit(slices, |units|, n) && i < n && m < |units| && FileOk(units, slices, n, i, m, file)
    requires Inside(ops, Cum(slices, i, m) * ALIGN, Cum(slices, i, m + 1) * ALIGN)
    requires FillsInside(fills, Cum(slices, i, m) * ALIGN, Cum(slices, i, m + 1) * ALIGN)
    ensures forall u :: 0 <= u < m ==> StripInFile(units, slices, n, i, u, File(file.ops + ops, file.fills + fills))
  {
    ScaleSum(slices, i, m);
    hide FillsInside, Inside, StripAt, LogStart, Cum;
    var more := File(file.ops + ops, file.fills + fills);
    forall u: nat | u < m ensures StripInFile(units, slices, n, i, u, more) {
      assert StripInFile(units, slices, n, i, u, file);
      CumBefore(slices, i, u, m);
      OldStrip(file, Cum(slices, i, u) * ALIGN, slices[u][i] * ALIGN, units[u].content, LogStart(slices[u], i), ops,
          fills,
               Cum(slices, i, m) * ALIGN, slices[m][i] * ALIGN);
    }
  }

  /** The strip of unit m is added to a file holding the strips before it. */
  lemma AppendStrip(units: seq<Unit>, slices: seq<seq<nat>>, n: nat, i: nat, m: nat, file: File, ops: seq<Op>,
                    fills: seq<Fill>)
    requires SlicesFit(slices, |units|, n) && i < n && m < |units| && FileOk(units, slices, n, i, m, file)
    requires StripOk(units[m].content, LogStart(slices[m], i), slices[m][i] * ALIGN, Cum(slices, i, m) * ALIGN, ops,
               fills)
    ensures FileOk(units, slices, n, i, m + 1, File(file.ops + ops, file.fills + fills))
  {
    hide FillsInside, Inside, StripAt, Mapped, LogStart, Cum;
    ScaleSum(slices, i, m);
    var base, len := Cum(slices, i, m) * ALIGN, slices[m][i] * ALIGN;
    StripBounds(units[m].content, LogStart(slices[m], i), len, base, ops, fills);
    OldStrips(units, slices, n, i, m, file, ops, fills);
    NewStrip(file, units[m].content, LogStart(slices[m], i), ops, fills, base, len);
    InsideConcat(file.ops, ops, file.fills, fills, base, len);
  }

  /** The copies and fills of file i. */
  method PlanFile(units: seq<Unit>, slices: seq<seq<nat>>, n: nat, i: nat) returns (file: File)
    requires SlicesFit(slices, |units|, n) && i < n
    ensures FileOk(units, slices, n, i, |units|, file)
  {
    file := File([], []);
    var cum := 0;
    for u := 0 to |units|
      invariant cum == Cum(slices, i, u) && FileOk(units, slices, n, i, u, file)
    {
      var bStart := 0;
      for f := 0 to i
        invariant bStart == Sum(slices[u][..f])
      {
        assert slices[u][..f + 1] == slices[u][..f] + [slices[u][f]];
        B.SumSnoc(slices[u][..f], slices[u][f]);
        bStart := bStart + slices[u][f];
      }
      var stripLen := slices[u][i] * ALIGN;
      if stripLen != 0 {
        var ops, fills := PlanStrip(units[u].content, bStart * ALIGN, stripLen, cum * ALIGN);
        AppendStrip(units, slices, n, i, u, file, ops, fills);
        file := File(file.ops + ops, file.fills + fills);
      } else {
        EmptyStrip(units, slices, n, i, u, file);
      }
      cum := cum + slices[u][i];
    }
  }

  lemma EmptyStrip(units: seq<Unit>, slices: seq<seq<nat>>, n: nat, i: nat, m: nat, file: File)
    requires SlicesFit(slices, |units|, n) && i < n && m < |units| && FileOk(units, slices, n, i, m, file) &&
               slices[m][i] * ALIGN == 0
    ensures FileOk(units, slices, n, i, m + 1, file)
  {
  }

  // ---- all chunk files -----------------------------------------------------------------------

  datatype Result = Files(files: seq<File>, slices: seq<seq<nat>>) | NotAligned | BadRatio

  /** The ratio is absent, or has one entry per file and a positive sum. */
  predicate RatioOk(n: nat, ratio: seq<nat>) {
    ratio == [] || (|ratio| == n && Sum(ratio) > 0)
  }

  /** The blocks of a unit are shared out among the files. */
  ghost predicate Shared(size: nat, n: nat, ratio: seq<nat>, counts: seq<nat>) {
    && |counts| == n && size % ALIGN == 0 && Sum(counts) * ALIGN == size
    && (ratio != [] ==> Sum(ratio) > 0 && B.IsApportionment(size / ALIGN, ratio, counts))
  }

  ghost predicate ChunksOk(units: seq<Unit>, n: nat, ratio: seq<nat>, files: seq<File>, slices: seq<seq<nat>>) {
    && SlicesFit(slices, |units|, n) && |files| == n
    && (forall u :: 0 <= u < |units| ==> Shared(units[u].size, n, ratio, slices[u]))
    && forall i :: 0 <= i < n ==> FileOk(units, slices, n, i, |units|, files[i])
  }

  /** The strip counts of every unit. */
  method ShareOut(units: seq<Unit>, n: nat, ratio: seq<nat>) returns (r: Result)
    requires n >= 1
    ensures r.Files? ==>
              SlicesFit(r.slices, |units|, n) &&
                  forall u :: 0 <= u < |units| ==> Shared(units[u].size, n, ratio, r.slices[u])
    ensures r == BadRatio ==> !RatioOk(n, ratio)
    ensures r == NotAligned ==> exists u :: 0 <= u < |units| && units[u].size % ALIGN != 0
    ensures r.Files? ==> units == [] || RatioOk(n, ratio)
  {
    var slices: seq<seq<nat>> := [];
    for u := 0 to |units|
      invariant SlicesFit(slices, u, n) && forall v :: 0 <= v < u ==> Shared(units[v].size, n, ratio, slices[v])
      invariant u > 0 ==> RatioOk(n, ratio)
    {
      if units[u].size % ALIGN != 0 { return NotAligned; }
      var sp := B.SplitBlocks(units[u].size / ALIGN, n, ratio);
      match sp
      case Split(counts) =>
        slices := slices + [counts];
      case _ => return BadRatio;
    }
    r := Files([], slices);
  }

  /** write_v3_chunk. Every unit aligned and the ratio usable: one plan per file. */
  method WriteChunks(units: seq<Unit>, n: nat, ratio: seq<nat>) returns (r: Result)
    requires n >= 1
    ensures r == BadRatio ==> !RatioOk(n, ratio)
    ensures r == NotAligned ==> exists u :: 0 <= u < |units| && units[u].size % ALIGN != 0
    ensures r.Files? ==> ChunksOk(units, n, ratio, r.files, r.slices)
    ensures (forall u :: 0 <= u < |units| ==> units[u].size % ALIGN == 0) && RatioOk(n, ratio) ==> r.Files?
    ensures r.Files? ==> units == [] || RatioOk(n, ratio)
  {
    r := ShareOut(units, n, ratio);
    if !r.Files? { return; }
    var files: seq<File> := [];
    for i := 0 to n
      invariant |files| == i && forall f :: 0 <= f < i ==> FileOk(units, r.slices, n, f, |units|, files[f])
    {
      var file := PlanFile(units, r.slices, n, i);
      files := files + [file];
    }
    r := Files(files, r.slices);
  }

  // ---- the round trip ---------------------------------------------------------------------------

  /** A byte of a unit's image: its source byte, or zero. */
  function UnitByte(src: (nat, nat) -> nat, content: seq<Item>, x: int): nat {
    match SourceAt(content, x)
    case None => 0
    case Some(l) => src(l.file, l.pos)
  }

  /** A byte of a chunk file: the fills are written after the copies. */
  ghost function FileByte(src: (nat, nat) -> nat, file: File, pos: int): nat {
    if Filled(file.fills, pos) then 0
    else match Landed(file.ops, pos)
         case None => 0
         case Some(l) => src(l.file, l.pos)
  }

  /** The strip of a unit as read back from file i. */
  ghost function StripBytes(src: (nat, nat) -> nat, slices: seq<seq<nat>>, i: nat, u: nat, file: File): seq<nat>
    requires u < |slices| && forall v :: 0 <= v < |slices| ==> i < |slices[v]|
  {
    seq<nat>(slices[u][i] * ALIGN, y => FileByte(src, file, Cum(slices, i, u) * ALIGN + y))
  }

  /** The strips of the first m files one after the other. */
  ghost function Joined(src: (nat, nat) -> nat, slices: seq<seq<nat>>, u: nat, files: seq<File>, m: nat): seq<nat>
    requires m <= |files| && u < |slices| && forall v :: 0 <= v < |slices| ==> |slices[v]| == |files|
  {
    if m == 0 then [] else Joined(src, slices, u, files, m - 1) + StripBytes(src, slices, m - 1, u, files[m - 1])
  }

  lemma StripIsSlice(src: (nat, nat) -> nat, units: seq<Unit>, slices: seq<seq<nat>>, n: nat, i: nat, u: nat,
                     file: File, y: nat)
    requires SlicesFit(slices, |units|, n) && i < n && u < |units| && FileOk(units, slices, n, i, |units|, file) &&
               y < slices[u][i] * ALIGN
    ensures StripBytes(src, slices, i, u, file)[y] == UnitByte(src, units[u].content, LogStart(slices[u], i) + y)
  {
    hide FillsInside, Inside, SourceAt, Landed, Filled, LogStart;
    assert StripInFile(units, slices, n, i, u, file);
    var pos := Cum(slices, i, u) * ALIGN + y;
    assert StripBytes(src, slices, i, u, file)[y] == FileByte(src, file, pos);
    assert Landed(file.ops, pos) ==
             SourceAt(units[u].content, pos - Cum(slices, i, u) * ALIGN + LogStart(slices[u], i));
  }

  lemma {:induction false} JoinedIsPrefix(src: (nat, nat) -> nat, units: seq<Unit>, n: nat, ratio: seq<nat>,
                                          files: seq<File>, slices: seq<seq<nat>>, u: nat, m: nat)
    requires ChunksOk(units, n, ratio, files, slices) && u < |units| && m <= n
    ensures |Joined(src, slices, u, files, m)| == LogStart(slices[u], m)
    ensures forall x :: 0 <= x < |Joined(src, slices, u, files, m)| ==>
              Joined(src, slices, u, files, m)[x] == UnitByte(src, units[u].content, x)
  {
    if m > 0 {
      JoinedIsPrefix(src, units, n, ratio, files, slices, u, m - 1);
      var counts := slices[u];
      assert counts[..m] == counts[..m - 1] + [counts[m - 1]];
      B.SumSnoc(counts[..m - 1], counts[m - 1]);
      var before, strip := Joined(src, slices, u, files, m - 1), StripBytes(src, slices, m - 1, u, files[m - 1]);
      hide UnitByte, Joined, StripBytes;
      assert |strip| == counts[m - 1] * ALIGN by { StripSize(src, slices, m - 1, u, files[m - 1]); }
      JoinedStep(src, slices, u, files, m);
      forall x | 0 <= x < |before + strip| ensures (before + strip)[x] == UnitByte(src, units[u].content, x) {
        if x >= |before| {
          StripIsSlice(src, units, slices, n, m - 1, u, files[m - 1], x - |before|);
        }
      }
    }
  }

  lemma StripSize(src: (nat, nat) -> nat, slices: seq<seq<nat>>, i: nat, u: nat, file: File)
    requires u < |slices| && forall v :: 0 <= v < |slices| ==> i < |slices[v]|
    ensures |StripBytes(src, slices, i, u, file)| == slices[u][i] * ALIGN
  {
  }

  lemma JoinedStep(src: (nat, nat) -> nat, slices: seq<seq<nat>>, u: nat, files: seq<File>, m: nat)
    requires 1 <= m <= |files| && u < |slices| && forall v :: 0 <= v < |slices| ==> |slices[v]| == |files|
    ensures Joined(src, slices, u, files, m) ==
              Joined(src, slices, u, files, m - 1) + StripBytes(src, slices, m - 1, u, files[m - 1])
  {
  }

  /** Strip round trip: for every number of files and every usable ratio, the strips
      of a unit concatenated over the files are byte for byte the unit's image. */
  lemma StripsReassemble(src: (nat, nat) -> nat, units: seq<Unit>, n: nat, ratio: seq<nat>, files: seq<File>,
                         slices: seq<seq<nat>>, u: nat)
    requires ChunksOk(units, n, ratio, files, slices) && u < |units|
    ensures Joined(src, slices, u, files, n) == seq<nat>(units[u].size, x => UnitByte(src, units[u].content, x))
  {
    JoinedIsPrefix(src, units, n, ratio, files, slices, u, n);
    assert slices[u][..n] == slices[u];
    assert Shared(units[u].size, n, ratio, slices[u]);
  }
}
