/** The checkpointed archive: puts go to memory at once, syncs reach the disk only when
    the archive is contiguous up to the highest checkpoint boundary seen. */
module Archive {
  import opened Prelude

  datatype Range = Range(start: nat, end: nat)

  predicate InRange(r: Range, x: nat) { r.start <= x <= r.end }

  /** `ranges()` of the inner archive: disjoint runs of stored indices in order. */
  ghost predicate IsRanges(rs: seq<Range>, items: set<nat>) {
    && (forall r <- rs :: r.start <= r.end <= U64_MAX)
    && (forall i: nat, j: nat :: i < j < |rs| ==> rs[i].end < rs[j].start)
    && (forall x: nat :: x in items <==> exists r <- rs :: InRange(r, x))
  }

  ghost predicate Least(items: set<nat>, x: nat) {
    x in items && forall y <- items :: x <= y
  }

  ghost predicate StoredFrom(items: set<nat>, first: nat, last: int) {
    forall x: nat :: first <= x <= last ==> x in items
  }

  /** All indices from the first stored one through `target` are stored. */
  ghost predicate Contiguous(items: set<nat>, target: nat) {
    exists first: nat :: Least(items, first) && first <= target && StoredFrom(items, first, target)
  }

  lemma FirstStart(rs: seq<Range>, items: set<nat>)
    requires IsRanges(rs, items) && rs != []
    ensures Least(items, rs[0].start)
  {
    assert InRange(rs[0], rs[0].start);
    forall y | y in items ensures rs[0].start <= y {
      var r :| r in rs && InRange(r, y);
    }
  }

  lemma ExtendStored(rs: seq<Range>, items: set<nat>, first: nat, i: nat)
    requires IsRanges(rs, items) && i < |rs| && StoredFrom(items, first, rs[i].start - 1)
    ensures StoredFrom(items, first, rs[i].end)
  {
    forall x: nat | first <= x <= rs[i].end ensures x in items {
      assert x >= rs[i].start ==> InRange(rs[i], x);
    }
  }

  /** The index after range `i - 1` is missing when range `i` starts later. */
  lemma GapMissing(rs: seq<Range>, items: set<nat>, i: nat)
    requires IsRanges(rs, items) && 0 < i <= |rs| && (i < |rs| ==> rs[i - 1].end + 1 < rs[i].start)
    ensures rs[i - 1].end + 1 !in items
  {
    forall r | r in rs ensures !InRange(r, rs[i - 1].end + 1) {
      var j: nat :| j < |rs| && rs[j] == r;
      assert j < i - 1 ==> rs[j].end < rs[i - 1].start;
      assert j > i ==> rs[i].end < rs[j].start;
    }
  }

  lemma NotContiguous(items: set<nat>, first: nat, gap: nat, target: nat)
    requires Least(items, first) && first <= gap <= target && gap !in items
    ensures !Contiguous(items, target)
  {
  }

  /** `checked_add(1)` */
  function CheckedSucc(x: nat): (r: Option<nat>) {
    if x < U64_MAX then Some(x + 1) else None
  }

  /** `is_contiguous_through`: the scan over the ranges. `expected` is the index the next
      range has to start at, `None` before the first range. */
  method IsContiguousThrough(rs: seq<Range>, ghost items: set<nat>, target: nat) returns (r: bool)
    requires IsRanges(rs, items) && target <= U64_MAX
    ensures r <==> Contiguous(items, target)
  {
    var expected: Option<nat> := None;
    for i := 0 to |rs|
      invariant i == 0 ==> expected.None?
      invariant i > 0 ==> expected == CheckedSucc(rs[i - 1].end) && rs[i - 1].end < target
      invariant i > 0 ==> Least(items, rs[0].start) && StoredFrom(items, rs[0].start, rs[i - 1].end)
      invariant i > 0 ==> rs[0].start <= rs[i - 1].end
    {
      if expected.None? {
        FirstStart(rs, items);
        if rs[i].start > target {
          return false;
        }
        ExtendStored(rs, items, rs[0].start, i);
        if rs[i].end >= target {
          assert StoredFrom(items, rs[0].start, target);
          return true;
        }
        expected := CheckedSucc(rs[i].end);
        continue;
      }
      if rs[i].start > expected.value {
        GapMissing(rs, items, i);
        NotContiguous(items, rs[0].start, rs[i - 1].end + 1, target);
        return false;
      }
      ExtendStored(rs, items, rs[0].start, i);
      if rs[i].end >= target {
        assert StoredFrom(items, rs[0].start, target);
        return true;
      }
      expected := CheckedSucc(rs[i].end);
    }
    if rs != [] {
      GapMissing(rs, items, |rs|);
      NotContiguous(items, rs[0].start, rs[|rs| - 1].end + 1, target);
    }
    r := false;
  }

  // ----- the wrapper -----

  function Boundary(height: nat, interval: nat): (r: nat)
    requires interval > 0
  {
    if interval == 1 then height else height / interval * interval
  }

  /** What `should_sync` decides. */
  ghost predicate ShouldSync(items: set<nat>, interval: nat, dirty: Option<nat>)
    requires interval > 0
  {
    && dirty.Some?
    && (interval > 1 ==> Boundary(dirty.value, interval) > 0)
    && Contiguous(items, Boundary(dirty.value, interval))
  }

  /** An archive's contents: what a reader sees, what a crash would leave, and the
      highest height put since the last sync that reached the disk. */
  datatype Contents = Contents(items: set<nat>, durable: set<nat>, dirty: Option<nat>)

  ghost predicate Sound(c: Contents) {
    && c.durable <= c.items
    && (c.dirty.None? ==> c.items == c.durable)
    && (c.dirty.Some? ==> c.dirty.value in c.items && forall x <- c.items - c.durable :: x <= c.dirty.value)
    && (forall x <- c.items :: x <= U64_MAX)
  }

  class CheckpointedArchive {
    var items: set<nat>
    var durable: set<nat>
    const interval: nat
    var highestDirty: Option<nat>

    ghost function Model(): (r: Contents)
      reads this
    {
      Contents(items, durable, highestDirty)
    }

    /** `new` around an archive whose contents are on disk; interval zero counts as one. */
    constructor (stored: set<nat>, checkpointInterval: nat)
      requires forall x <- stored :: x <= U64_MAX
      ensures Model() == Contents(stored, stored, None) && Sound(Model())
      ensures interval == if checkpointInterval == 0 then 1 else checkpointInterval
    {
      items, durable := stored, stored;
      interval := if checkpointInterval == 0 then 1 else checkpointInterval;
      highestDirty := None;
    }

    method Put(index: nat)
      requires index <= U64_MAX && Sound(Model())
      modifies this
      ensures Model() == PutInto(old(Model()), index) && Sound(Model())
    {
      assert forall x <- items + {index} - durable :: x == index || x in items - durable;
      items := items + {index};
      highestDirty := Some(match highestDirty case None => index case Some(h) => if h < index then index else h);
    }

    /** `sync` with the ranges the inner archive reports. */
    method Sync(rs: seq<Range>)
      requires interval > 0 && Sound(Model()) && IsRanges(rs, items)
      modifies this
      ensures Model() == SyncOf(old(Model()), interval) && Sound(Model())
    {
      var due := false;
      if highestDirty.Some? {
        var height := highestDirty.value;
        BoundaryBelow(height, interval);
        if interval <= 1 {
          due := IsContiguousThrough(rs, items, height);
        } else {
          var boundary := height / interval * interval;
          if boundary > 0 {
            due := IsContiguousThrough(rs, items, boundary);
          }
        }
      }
      if due {
        durable := items;
        highestDirty := None;
      }
    }

    /** A restart keeps what was on disk. */
    method Crash()
      requires Sound(Model())
      modifies this
      ensures Model() == Contents(old(durable), old(durable), None) && Sound(Model())
    {
      items := durable;
      highestDirty := None;
    }
  }

  lemma BoundaryBelow(height: nat, interval: nat)
    requires interval > 0
    ensures Boundary(height, interval) <= height < Boundary(height, interval) + interval
    ensures height < interval && interval > 1 ==> Boundary(height, interval) == 0
    ensures height >= interval ==> Boundary(height, interval) >= interval
  {
    var q := height / interval;
    assert height == q * interval + height % interval;
    if height >= interval {
      assert q >= 1;
      assert q * interval >= 1 * interval;
    }
  }

  function PutInto(c: Contents, index: nat): (r: Contents) {
    c.(items := c.items + {index},
       dirty := Some(if c.dirty.Some? && c.dirty.value > index then c.dirty.value else index))
  }

  ghost function SyncOf(c: Contents, interval: nat): (r: Contents)
    requires interval > 0
  {
    if ShouldSync(c.items, interval, c.dirty) then Contents(c.items, c.items, None) else c
  }

  /** After a sync everything put is durable, unless something is dirty and the highest
      dirty height is below the interval, or the stored indices have a gap before its
      boundary, or that boundary lies below the first stored index. */
  lemma SyncDurableIff(c: Contents, interval: nat)
    requires interval > 0 && Sound(c) && c.items != c.durable
    ensures
      var after := SyncOf(c, interval);
      var boundary := Boundary(c.dirty.value, interval);
      after.durable == c.items <==>
        !(interval > 1 && c.dirty.value < interval) &&
        forall first: nat :: Least(c.items, first) ==> first <= boundary && StoredFrom(c.items, first, boundary)
  {
    var h := c.dirty.value;
    BoundaryBelow(h, interval);
    var first := MinKey(c.items);
    assert Least(c.items, first);
    forall other: nat | Least(c.items, other) ensures other == first {}
  }

  // ----- runs -----

  datatype Op = PutOp(index: nat) | SyncOp | CrashOp

  ghost function Perform(c: Contents, op: Op, interval: nat): (r: Contents)
    requires interval > 0
  {
    match op
    case PutOp(index) => PutInto(c, index)
    case SyncOp => SyncOf(c, interval)
    case CrashOp => Contents(c.durable, c.durable, None)
  }

  ghost function RunOps(c: Contents, ops: seq<Op>, interval: nat): (r: Contents)
    requires interval > 0
  {
    if ops == [] then c else Perform(RunOps(c, ops[..|ops| - 1], interval), ops[|ops| - 1], interval)
  }

  /** Any run of puts, syncs and crashes keeps the archive sound, and no put is lost
      except by a crash. */
  lemma {:induction false} RunsAreSound(c: Contents, ops: seq<Op>, interval: nat)
    requires interval > 0 && Sound(c) && forall op <- ops :: op.PutOp? ==> op.index <= U64_MAX
    ensures Sound(RunOps(c, ops, interval))
    ensures CrashOp !in ops ==> forall op <- ops :: op.PutOp? ==> op.index in RunOps(c, ops, interval).items
    ensures c.durable <= RunOps(c, ops, interval).durable
  {
    if ops != [] {
      var init, last := ops[..|ops| - 1], ops[|ops| - 1];
      assert ops == init + [last];
      RunsAreSound(c, init, interval);
      PerformSound(RunOps(c, init, interval), last, interval);
    }
  }

  lemma PerformSound(c: Contents, op: Op, interval: nat)
    requires interval > 0 && Sound(c) && (op.PutOp? ==> op.index <= U64_MAX)
    ensures var r := Perform(c, op, interval);
      Sound(r) && c.durable <= r.durable && (op != CrashOp ==> c.items <= r.items)
  {
    if op.PutOp? {
      assert forall x <- c.items + {op.index} - c.durable :: x == op.index || x in c.items - c.durable;
    }
  }

  /** An archive that holds the `m` heights from `first` on, all durable, and puts and
      syncs the `n` heights after them in order. */
  ghost function InOrder(first: nat, m: nat, n: nat, interval: nat): (r: Contents)
    requires interval > 0
  {
    if n == 0 then Contents(Span(first, m), Span(first, m), None)
    else SyncOf(PutInto(InOrder(first, m, n - 1, interval), first + m + n - 1), interval)
  }

  function Span(first: nat, n: nat): (r: set<nat>) {
    set x: nat | x < first + n && AtLeast(x, first)
  }

  predicate AtLeast(x: nat, low: nat) { low <= x }

  /** No boundary that counts has been reached at height `h`. */
  predicate BelowBoundary(first: nat, h: nat, interval: nat)
    requires interval > 0
  {
    interval > 1 && (Boundary(h, interval) < first || Boundary(h, interval) == 0)
  }

  /** In an in-order run either everything is durable, or nothing new is and no boundary
      has been reached yet. */
  lemma {:induction false} InOrderShape(first: nat, m: nat, n: nat, interval: nat)
    requires interval > 0 && first + m + n <= U64_MAX
    ensures
      var c := InOrder(first, m, n, interval);
      && c.items == Span(first, m + n) && Sound(c)
      && (n > 0 && BelowBoundary(first, first + m + n - 1, interval) ==>
           c.durable == Span(first, m) && c.dirty == Some(first + m + n - 1))
      && (n == 0 || !BelowBoundary(first, first + m + n - 1, interval) ==> c.durable == c.items && c.dirty.None?)
  {
    if n > 0 {
      InOrderShape(first, m, n - 1, interval);
      var h := first + m + n - 1;
      var put := PutInto(InOrder(first, m, n - 1, interval), h);
      assert put.items == Span(first, m + n) && put.dirty == Some(h);
      InOrderSync(first, h, put, interval);
      if n > 1 && BelowBoundary(first, h, interval) {
        BoundaryMono(h - 1, h, interval);
      }
    }
  }

  /** A sync after the put of height `h` is due exactly when a boundary has been reached. */
  lemma InOrderSync(first: nat, h: nat, put: Contents, interval: nat)
    requires interval > 0 && first <= h <= U64_MAX
    requires put.items == Span(first, h + 1 - first) && put.dirty == Some(h)
    ensures ShouldSync(put.items, interval, put.dirty) <==> !BelowBoundary(first, h, interval)
  {
    BoundaryBelow(h, interval);
    var b := Boundary(h, interval);
    assert Least(put.items, first);
    assert StoredFrom(put.items, first, h);
    if first <= b {
      assert StoredFrom(put.items, first, b);
      assert Contiguous(put.items, b);
    } else {
      assert forall other: nat :: Least(put.items, other) ==> other == first;
    }
  }

  lemma BoundaryMono(a: nat, b: nat, interval: nat)
    requires interval > 0 && a <= b
    ensures Boundary(a, interval) <= Boundary(b, interval)
  {
    if interval > 1 {
      DivBounds(a, interval);
      DivBounds(b, interval);
      SameOrder(a / interval, b / interval, a, b, interval);
    }
  }

  lemma SameOrder(p: nat, q: nat, a: nat, b: nat, interval: nat)
    requires p * interval <= a <= b < q * interval + interval
    ensures p * interval <= q * interval
  {
    MulLt(p, q + 1, interval);
    MulLe(p, q, interval);
  }

  lemma {:induction false} SpanSize(first: nat, n: nat)
    ensures |Span(first, n)| == n
  {
    if n > 0 {
      SpanSize(first, n - 1);
      assert Span(first, n) == Span(first, n - 1) + {first + n - 1};
    }
  }

  ghost function AtRisk(first: nat, m: nat, n: nat, interval: nat): (r: set<nat>)
    requires interval > 0
  {
    InOrder(first, m, n, interval).items - InOrder(first, m, n, interval).durable
  }

  lemma AtRiskBelow(first: nat, m: nat, n: nat, interval: nat)
    requires interval > 0 && first + m + n <= U64_MAX && (m > 0 || first > 0 || interval == 1)
    ensures |AtRisk(first, m, n, interval)| < interval
  {
    InOrderShape(first, m, n, interval);
    if n > 0 && BelowBoundary(first, first + m + n - 1, interval) {
      assert AtRisk(first, m, n, interval) == Span(first + m, n);
      SpanSize(first + m, n);
      BoundaryBelow(first + m + n - 1, interval);
    } else {
      assert AtRisk(first, m, n, interval) == {};
    }
  }

  lemma AtRiskFromZero(interval: nat)
    requires 1 < interval <= U64_MAX
    ensures |AtRisk(0, 0, interval, interval)| == interval
  {
    InOrderShape(0, 0, interval, interval);
    BoundaryBelow(interval - 1, interval);
    assert AtRisk(0, 0, interval, interval) == Span(0, interval);
    SpanSize(0, interval);
  }

  /** An in-order run never has `interval` heights at risk, if and only if it resumes on an
      archive that already holds heights, does not start at height zero, or has an
      interval of one. */
  lemma AtRiskBound(first: nat, m: nat, interval: nat)
    requires interval > 0 && first + m + interval <= U64_MAX
    ensures (forall n: nat :: first + m + n <= U64_MAX ==> |AtRisk(first, m, n, interval)| < interval)
      <==> m > 0 || first > 0 || interval == 1
  {
    if m > 0 || first > 0 || interval == 1 {
      forall n: nat | first + m + n <= U64_MAX ensures |AtRisk(first, m, n, interval)| < interval {
        AtRiskBelow(first, m, n, interval);
      }
    } else {
      AtRiskFromZero(interval);
    }
  }
}
