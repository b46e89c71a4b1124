/** How a file is cut into parts: the server's plan, the client's upload of every part, and the
    server's check of the finished part list. Offsets and lengths are Go int64 values. */
module UploadParts {
  import opened Wrappers
  import opened GoInt
  import opened GoText
  import Sorting

  // ----- the server's plan -----

  const SINGLE_THRESHOLD: int := 16 * 1024 * 1024
  const DEFAULT_PART_SIZE: int := 16 * 1024 * 1024

  datatype Plan = Plan(single: bool, partSize: int, totalParts: int)

  function PartSizeFor(chunkSize: int): (p: int)
    ensures p >= DEFAULT_PART_SIZE && p >= chunkSize
  {
    if chunkSize < DEFAULT_PART_SIZE then DEFAULT_PART_SIZE else chunkSize
  }

  /** pickUploadMode */
  function PickUploadMode(fileSize: int, chunkSize: int): Plan {
    if fileSize <= SINGLE_THRESHOLD then Plan(true, fileSize, 1)
    else
      var p := PartSizeFor(chunkSize);
      Plan(false, p, Quotient(Wrap64(Wrap64(fileSize + p) - 1), p))
  }

  /** What a caller of Init could check: rounding the file up to whole parts stays within int64. */
  predicate PlanFits(fileSize: int, chunkSize: int) {
    fileSize <= SINGLE_THRESHOLD || fileSize + PartSizeFor(chunkSize) - 1 <= MAX_INT64
  }

  // ----- the client -----

  const BATCH := 4

  datatype Range = Range(offset: int, length: int)

  /** The byte range that putSinglePart sends for one part; a length <= 0 is an error there. */
  function PartRange(fileSize: int, plan: Plan, part: int): Range {
    var offset := Wrap64((part - 1) * plan.partSize);
    if plan.single then Range(0, fileSize)
    else if Wrap64(offset + plan.partSize) > fileSize then Range(offset, Wrap64(fileSize - offset))
    else Range(offset, plan.partSize)
  }

  datatype UploadError = NoUrl | EmptyPart | PutFailed

  predicate PartWorks(fileSize: int, plan: Plan, signed: set<int>, put: set<int>, n: int) {
    n in signed && n in put && PartRange(fileSize, plan, n).length > 0
  }

  ghost predicate WorkUpTo(fileSize: int, plan: Plan, signed: set<int>, put: set<int>, n: int) {
    forall k | 1 <= k <= n :: PartWorks(fileSize, plan, signed, put, k)
  }

  /** Every element of the set once, in some order. */
  ghost predicate Lists(order: seq<int>, batch: set<int>) {
    && |order| == |batch| && (forall k :: k in order <==> k in batch)
    && forall i, j | 0 <= i < j < |order| :: order[i] != order[j]
  }

  /** The first numbers, each once: batch after batch, and in any order within a batch. */
  ghost predicate Batched(sent: seq<int>) {
    && (forall k :: k in sent <==> 1 <= k <= |sent|)
    && (forall i | 0 <= i < |sent| :: (sent[i] - 1) / BATCH == i / BATCH)
    && forall i, j | 0 <= i < j < |sent| :: sent[i] != sent[j]
  }

  lemma BatchAfterBatch(sent: seq<int>, order: seq<int>, batch: set<int>)
    requires Batched(sent) && |sent| % BATCH == 0 && Lists(order, batch) && |batch| <= BATCH
    requires forall k :: k in batch <==> |sent| < k <= |sent| + |batch|
    ensures Batched(sent + order) && |order| == |batch|
  {
    var longer := sent + order;
    forall k ensures k in longer <==> 1 <= k <= |longer| {
      assert k in longer <==> k in sent || k in order;
    }
    forall i | |sent| <= i < |longer| ensures (longer[i] - 1) / BATCH == i / BATCH {
      assert longer[i] == order[i - |sent|] && longer[i] in order;
    }
    forall i, j | 0 <= i < j < |longer| ensures longer[i] != longer[j] {
      if i < |sent| <= j {
        assert longer[i] in sent && longer[j] == order[j - |sent|] && longer[j] in order;
      }
    }
  }

  /** The bytes of parts 1 to n have been collected, each part with its own range. */
  ghost predicate Collected(fileSize: int, plan: Plan, n: int, collected: map<int, Range>) {
    && (forall k :: k in collected <==> 1 <= k <= n)
    && forall k | 1 <= k <= n :: collected[k] == PartRange(fileSize, plan, k)
  }

  lemma Inhabited(s: set<int>)
    requires s != {}
    ensures exists k :: k in s
  {
    assert (forall k :: k !in s) ==> s == {};
  }

  /** The requests of one batch run concurrently: they take effect in any order, and a failing one does not
      hold up the rest. `put` are the parts whose PUT is answered with an ETag. */
  method SendBatch(fileSize: int, plan: Plan, put: set<int>, batch: set<int>)
    returns (order: seq<int>, collected: map<int, Range>, firstErr: Option<UploadError>)
    ensures Lists(order, batch)
    ensures forall k :: k in collected <==> k in batch && k in put && PartRange(fileSize, plan, k).length > 0
    ensures forall k <- collected :: collected[k] == PartRange(fileSize, plan, k)
    ensures firstErr.None? <==> forall k <- batch :: k in collected
    ensures firstErr != Some(NoUrl)
  {
    order, collected, firstErr := [], map[], None;
    var pending := batch;
    while pending != {}
      invariant pending <= batch && |order| + |pending| == |batch|
      invariant forall k :: k in order <==> k in batch && k !in pending
      invariant forall i, j | 0 <= i < j < |order| :: order[i] != order[j]
      invariant forall k :: k in collected <==> k in order && k in put && PartRange(fileSize, plan, k).length > 0
      invariant forall k <- collected :: collected[k] == PartRange(fileSize, plan, k)
      invariant firstErr.None? <==> forall k <- order :: k in collected
      invariant firstErr != Some(NoUrl)
      decreases pending
    {
      Inhabited(pending);
      var part :| part in pending;
      pending := pending - {part};
      var range := PartRange(fileSize, plan, part);
      ghost var before := order;
      order := order + [part];
      assert forall k :: k in order <==> k in before || k == part;
      if range.length > 0 && part in put {
        collected := collected[part := range];
      } else if firstErr.None? {
        firstErr := Some(if range.length <= 0 then EmptyPart else PutFailed);
      }
    }
  }

  /** The parts of a batch up to the first one without a URL. */
  method SignedParts(signed: set<int>, cursor: int, end: int) returns (batch: set<int>)
    requires cursor <= end
    ensures |batch| <= end - cursor && forall k :: k in batch <==> cursor < k <= cursor + |batch|
    ensures batch <= signed && (|batch| < end - cursor ==> cursor + |batch| + 1 !in signed)
  {
    batch := {};
    for part := cursor + 1 to end + 1
      invariant |batch| == part - 1 - cursor && batch <= signed
      invariant forall k :: k in batch <==> cursor < k < part
    {
      if part !in signed {
        return;
      }
      batch := batch + {part};
    }
  }

  /** uploadAllParts: batches of up to four parts. `signed` are the parts whose URL was issued. `sent` lists the
      parts in the order their requests ran; `finished` counts those of the batches that went through. A missing
      URL leaves the rest of its batch unsent, a failing request does not. */
  method UploadAllParts(fileSize: int, plan: Plan, signed: set<int>, put: set<int>)
    returns (r: Result<map<int, Range>, UploadError>, sent: seq<int>, ghost finished: nat)
    ensures var total := if plan.totalParts <= 0 then 1 else plan.totalParts;
            && Batched(sent) && finished <= |sent| <= total && WorkUpTo(fileSize, plan, signed, put, finished)
            && (r.Ok? <==> WorkUpTo(fileSize, plan, signed, put, total))
            && (r.Ok? ==> |sent| == total && Collected(fileSize, plan, total, r.value))
            && (r == Err(NoUrl) ==> |sent| < finished + BATCH && |sent| + 1 !in signed)
            && (r.Err? && r.error != NoUrl ==>
                  && |sent| == (if finished + BATCH <= total then finished + BATCH else total)
                  && exists k | finished < k <= |sent| :: k in signed && !PartWorks(fileSize, plan, signed, put, k))
  {
    hide PartRange, Batched, Lists, WorkUpTo, Collected, PartWorks;
    var total := if plan.totalParts <= 0 then 1 else plan.totalParts;
    var all: map<int, Range> := map[];
    sent, finished := [], 0;
    NothingSent(fileSize, plan, signed, put);
    var cursor := 0;
    while cursor < total
      invariant 0 <= cursor && cursor % BATCH == 0 && finished == if cursor < total then cursor else total
      invariant |sent| == finished && Batched(sent)
      invariant WorkUpTo(fileSize, plan, signed, put, finished) && Collected(fileSize, plan, finished, all)
    {
      var end := if cursor + BATCH <= total then cursor + BATCH else total;
      var batch := SignedParts(signed, cursor, end);
      var order, collected, firstErr := SendBatch(fileSize, plan, put, batch);
      BatchAfterBatch(sent, order, batch);
      sent := sent + order;
      if |batch| < end - cursor {
        Fails(fileSize, plan, signed, put, |sent| + 1, total);
        return Err(NoUrl), sent, finished;
      }
      if firstErr.Some? {
        var k: int :| k in batch && k !in collected;
        Fails(fileSize, plan, signed, put, k, total);
        return Err(firstErr.value), sent, finished;
      }
      BatchDone(fileSize, plan, signed, put, cursor, end, all, collected);
      all := all + collected;
      finished, cursor := end, cursor + BATCH;
    }
    r := Ok(all);
  }

  lemma Fails(fileSize: int, plan: Plan, signed: set<int>, put: set<int>, k: int, total: int)
    requires 1 <= k <= total && !(k in signed && k in put && PartRange(fileSize, plan, k).length > 0)
    ensures !PartWorks(fileSize, plan, signed, put, k) && !WorkUpTo(fileSize, plan, signed, put, total)
  {
  }

  lemma BatchDone(fileSize: int, plan: Plan, signed: set<int>, put: set<int>, cursor: int, end: int,
                  all: map<int, Range>, collected: map<int, Range>)
    requires 0 <= cursor <= end && WorkUpTo(fileSize, plan, signed, put, cursor)
             && Collected(fileSize, plan, cursor, all)
    requires forall k :: k in collected <==> cursor < k <= end
    requires forall k <- collected :: k in signed && k in put && PartRange(fileSize, plan, k).length > 0
    requires forall k <- collected :: collected[k] == PartRange(fileSize, plan, k)
    ensures WorkUpTo(fileSize, plan, signed, put, end) && Collected(fileSize, plan, end, all + collected)
  {
    hide PartRange;
  }

  lemma NothingSent(fileSize: int, plan: Plan, signed: set<int>, put: set<int>)
    ensures Batched([]) && WorkUpTo(fileSize, plan, signed, put, 0) && Collected(fileSize, plan, 0, map[])
  {
  }

  // ----- the finished part list -----

  datatype Part = Part(number: int, etag: string)

  function NumberOf(p: Part): int {
    p.number
  }

  predicate ByNumber(a: Part, b: Part) {
    a.number <= b.number
  }

  predicate Ascending(parts: seq<Part>) {
    forall i, j | 0 <= i < j < |parts| :: parts[i].number < parts[j].number
  }

  predicate GoodPart(p: Part) {
    p.number >= 1 && TrimSpace(p.etag) != ""
  }

  predicate AcceptableParts(parts: seq<Part>) {
    parts != [] && (forall p <- parts :: GoodPart(p)) && Sorting.DistinctBy(NumberOf, parts)
  }

  function TrimTags(parts: seq<Part>): (r: seq<Part>)
    ensures |r| == |parts|
    ensures forall i | 0 <= i < |parts| :: r[i] == Part(parts[i].number, TrimSpace(parts[i].etag))
  {
    if parts == [] then [] else [Part(parts[0].number, TrimSpace(parts[0].etag))] + TrimTags(parts[1..])
  }

  /** normalizeCompletedParts: it accepts exactly the nonempty lists of distinct positive numbers with
      tags, returns the same parts in ascending order, and leaves an ascending list as it is. */
  method NormalizeCompletedParts(parts: seq<Part>) returns (r: Option<seq<Part>>)
    ensures r.Some? <==> AcceptableParts(parts)
    ensures r.Some? ==> Ascending(r.value) && multiset(r.value) == multiset(TrimTags(parts))
    ensures r.Some? && Ascending(parts) && (forall p <- parts :: Trimmed(p.etag)) ==> r.value == parts
  {
    hide TrimSpace, TrimTags, Ascending;
    if |parts| == 0 { return None; }
    var seen: set<int> := {};
    var storageParts: seq<Part> := [];
    for i := 0 to |parts|
      invariant forall n :: n in seen <==> exists k :: 0 <= k < i && parts[k].number == n
      invariant storageParts == TrimTags(parts)[..i]
      invariant forall k | 0 <= k < i :: GoodPart(parts[k])
      invariant Sorting.DistinctBy(NumberOf, parts[..i])
    {
      if !GoodPart(parts[i]) {
        assert parts[i] in parts;
        return None;
      }
      if parts[i].number in seen {
        var k :| 0 <= k < i && parts[k].number == parts[i].number;
        assert NumberOf(parts[k]) == NumberOf(parts[i]);
        return None;
      }
      assert parts[..i + 1] == parts[..i] + [parts[i]];
      seen := seen + {parts[i].number};
      storageParts := storageParts + [Part(parts[i].number, TrimSpace(parts[i].etag))];
    }
    assert parts[..|parts|] == parts && storageParts == TrimTags(parts);
    NormalizedIsAscending(parts);
    r := Some(Sorting.Sort(ByNumber, storageParts));
  }

  lemma NormalizedIsAscending(parts: seq<Part>)
    requires AcceptableParts(parts)
    ensures var sorted := Sorting.Sort(ByNumber, TrimTags(parts));
            && Ascending(sorted) && multiset(sorted) == multiset(TrimTags(parts))
            && (Ascending(parts) && (forall p <- parts :: Trimmed(p.etag)) ==> sorted == parts)
  {
    var trimmed := TrimTags(parts);
    var sorted := Sorting.Sort(ByNumber, trimmed);
    assert Sorting.DistinctBy(NumberOf, trimmed);
    Sorting.SortSorts(ByNumber, trimmed);
    Sorting.DistinctStaysDistinct(NumberOf, trimmed, sorted);
    forall i, j | 0 <= i < j < |sorted| ensures sorted[i].number < sorted[j].number {
      assert ByNumber(sorted[i], sorted[j]) && NumberOf(sorted[i]) != NumberOf(sorted[j]);
    }
    if Ascending(parts) && forall p <- parts :: Trimmed(p.etag) {
      AscendingStays(parts);
    }
  }

  lemma AscendingStays(parts: seq<Part>)
    requires Ascending(parts) && forall p <- parts :: Trimmed(p.etag)
    ensures Sorting.Sort(ByNumber, TrimTags(parts)) == parts
  {
    assert TrimTags(parts) == parts by { hide Ascending, TrimSpace; }
    hide TrimTags, TrimSpace;
    assert Sorting.Sorted(ByNumber, parts);
    forall x <- parts, y <- parts | ByNumber(x, y) && ByNumber(y, x) ensures x == y {
      var i :| 0 <= i < |parts| && parts[i] == x;
      var j :| 0 <= j < |parts| && parts[j] == y;
      assert i == j;
    }
    hide Ascending;
    Sorting.SortOfSorted(ByNumber, parts);
  }

  // ----- the whole upload -----

  /** Consecutive nonempty ranges from the first byte to the last. */
  ghost predicate Tiles(ranges: map<int, Range>, total: int, fileSize: int) {
    && total >= 1 && (forall n :: n in ranges <==> 1 <= n <= total)
    && (forall n | 1 <= n <= total :: ranges[n].length > 0)
    && ranges[1].offset == 0
    && (forall n | 1 <= n < total :: ranges[n].offset + ranges[n].length == ranges[n + 1].offset)
    && ranges[total].offset + ranges[total].length == fileSize
  }

  function BytesSent(ranges: map<int, Range>, n: nat): int
    requires forall k | 1 <= k <= n :: k in ranges
  {
    if n == 0 then 0 else BytesSent(ranges, n - 1) + ranges[n].length
  }

  lemma {:induction false} TilesAddUp(ranges: map<int, Range>, total: int, fileSize: int, n: nat)
    requires Tiles(ranges, total, fileSize) && 1 <= n <= total
    ensures BytesSent(ranges, n) == ranges[n].offset + ranges[n].length
  {
    if n > 1 {
      TilesAddUp(ranges, total, fileSize, n - 1);
    }
  }

  /** The first byte of part n. */
  function Start(n: int, p: int): int {
    (n - 1) * p
  }

  lemma StartStep(n: int, p: int)
    ensures Start(n + 1, p) == Start(n, p) + p && Start(1, p) == 0
  {
    assert n * p == (n - 1) * p + p;
  }

  lemma {:induction false} StartGrows(m: int, n: int, p: int)
    requires 1 <= m <= n && 0 <= p
    ensures 0 <= Start(m, p) <= Start(n, p)
    decreases n
  {
    if m < n {
      StartGrows(m, n - 1, p);
      StartStep(n - 1, p);
    } else if m > 1 {
      StartGrows(m - 1, m - 1, p);
      StartStep(m - 1, p);
    }
  }

  lemma RoundedUp(size: int, p: int)
    requires 0 < size && 0 < p
    ensures var total := (size + p - 1) / p; total >= 1 && Start(total, p) < size <= Start(total, p) + p
  {
    var total, rest := (size + p - 1) / p, (size + p - 1) % p;
    assert p * total + rest == size + p - 1 && 0 <= rest < p;
    assert total != 0 by { assert p * 0 == 0; }
    assert total >= 1;
    StartStep(total, p);
    assert Start(total + 1, p) == p * total;
  }

  /** One part of a plan that fits: the exact bytes, with no wrap-around anywhere. */
  lemma PartRangeIsExact(fileSize: int, chunkSize: int, n: int)
    requires SINGLE_THRESHOLD < fileSize <= MAX_INT64 && IsInt64(chunkSize) && PlanFits(fileSize, chunkSize)
    requires 1 <= n <= PickUploadMode(fileSize, chunkSize).totalParts
    ensures var plan := PickUploadMode(fileSize, chunkSize);
            var start := Start(n, plan.partSize);
            && 0 <= start < fileSize
            && (n < plan.totalParts ==> start + plan.partSize < fileSize)
            && PartRange(fileSize, plan, n) ==
                 Range(start, if n < plan.totalParts then plan.partSize else fileSize - start)
  {
    var plan := PickUploadMode(fileSize, chunkSize);
    var p, total := plan.partSize, plan.totalParts;
    assert total == (fileSize + p - 1) / p;
    RoundedUp(fileSize, p);
    StartGrows(n, total, p);
    if n < total {
      StartGrows(n + 1, total, p);
      StartStep(n, p);
    }
    var start := Start(n, p);
    assert start == (n - 1) * p;
    hide Start;
    assert IsInt64(start) && IsInt64(start + p);
  }

  lemma EvenRangesTile(ranges: map<int, Range>, total: int, p: int, fileSize: int)
    requires total >= 1 && forall n :: n in ranges <==> 1 <= n <= total
    requires forall n | 1 <= n <= total :: ranges[n].offset == Start(n, p) && ranges[n].length > 0
    requires forall n | 1 <= n < total :: ranges[n].length == p
    requires ranges[total].offset + ranges[total].length == fileSize
    ensures Tiles(ranges, total, fileSize)
  {
    hide Start;
    StartStep(1, p);
    forall n | 1 <= n < total ensures ranges[n].offset + ranges[n].length == ranges[n + 1].offset {
      StartStep(n, p);
    }
  }

  /** A plan that fits cuts the file into consecutive parts; all but the last have the full part size. */
  lemma PlanTiles(fileSize: int, chunkSize: int, ranges: map<int, Range>)
    requires 0 < fileSize <= MAX_INT64 && IsInt64(chunkSize) && PlanFits(fileSize, chunkSize)
    requires var plan := PickUploadMode(fileSize, chunkSize);
             && (forall n :: n in ranges <==> 1 <= n <= plan.totalParts)
             && forall n | 1 <= n <= plan.totalParts :: ranges[n] == PartRange(fileSize, plan, n)
    ensures var plan := PickUploadMode(fileSize, chunkSize);
            && Tiles(ranges, plan.totalParts, fileSize)
            && BytesSent(ranges, plan.totalParts) == fileSize
            && (!plan.single ==> plan.partSize >= DEFAULT_PART_SIZE)
            && (!plan.single ==> forall n | 1 <= n < plan.totalParts :: ranges[n].length == plan.partSize)
  {
    var plan := PickUploadMode(fileSize, chunkSize);
    var p, total := plan.partSize, plan.totalParts;
    if plan.single {
      assert ranges[1] == Range(0, fileSize);
    } else {
      RoundedUp(fileSize, p);
      assert total >= 1;
      assert fileSize > SINGLE_THRESHOLD && p >= DEFAULT_PART_SIZE;
      forall n | 1 <= n <= total
        ensures ranges[n].length > 0 && ranges[n].offset == Start(n, p)
        ensures n < total ==> ranges[n].length == p
        ensures n == total ==> ranges[n].offset + ranges[n].length == fileSize
      {
        hide PartRange, Tiles, Start;
        PartRangeIsExact(fileSize, chunkSize, n);
      }
      hide PartRange, PickUploadMode, Tiles, Start;
      EvenRangesTile(ranges, total, p, fileSize);
    }
    TilesAddUp(ranges, total, fileSize, total);
  }

  /** A plan that does not fit announces no parts at all. */
  lemma OverflowingPlan(fileSize: int, chunkSize: int)
    requires 0 < fileSize <= MAX_INT64 && IsInt64(chunkSize) && !PlanFits(fileSize, chunkSize)
    ensures !PickUploadMode(fileSize, chunkSize).single && PickUploadMode(fileSize, chunkSize).totalParts <= 0
  {
    var p := PartSizeFor(chunkSize);
    var n := Wrap64(Wrap64(fileSize + p) - 1);
    assert n < 0;
    assert (-n) / p >= 0;
  }

  /** Init's plan, the client's part uploads and the server's check of the part list, end to end. With
      every part signed and stored, the upload is accepted if and only if the plan fits; then the parts
      tile the file and the server takes the client's list unchanged. */
  method UploadFile(fileSize: int, chunkSize: int, signed: set<int>, put: set<int>, tag: int -> string)
    returns (accepted: bool, ranges: map<int, Range>)
    requires 0 < fileSize <= MAX_INT64 && IsInt64(chunkSize)
    requires forall n <- put :: tag(n) != "" && Trimmed(tag(n))
    ensures var plan := PickUploadMode(fileSize, chunkSize);
            && (accepted ==> PlanFits(fileSize, chunkSize) && Tiles(ranges, plan.totalParts, fileSize))
            && (PlanFits(fileSize, chunkSize) && (forall n | 1 <= n <= plan.totalParts :: n in signed && n in put)
               ==> accepted)
  {
    hide PickUploadMode, PartRange, Tiles, PlanFits, Batched, Collected;
    var plan := PickUploadMode(fileSize, chunkSize);
    PlanShape(fileSize, chunkSize);
    var uploaded, _, _ := UploadAllParts(fileSize, plan, signed, put);
    if uploaded.Err? {
      return false, map[];
    }
    CollectedTiles(fileSize, chunkSize, uploaded.value);
    if plan.single {
      return true, uploaded.value;
    }
    forall n | 1 <= n <= plan.totalParts ensures n in put {
      assert PartWorks(fileSize, plan, signed, put, n);
    }
    accepted := Finish(plan, put, tag);
    ranges := if accepted then uploaded.value else map[];
  }

  lemma PlanShape(fileSize: int, chunkSize: int)
    requires 0 < fileSize <= MAX_INT64 && IsInt64(chunkSize)
    ensures var plan := PickUploadMode(fileSize, chunkSize);
            if PlanFits(fileSize, chunkSize) then
              && plan.totalParts >= 1 && (plan.single ==> plan.totalParts == 1)
              && forall n | 1 <= n <= plan.totalParts :: PartRange(fileSize, plan, n).length > 0
            else !plan.single && plan.totalParts <= 0
  {
    if PlanFits(fileSize, chunkSize) {
      PlanHasParts(fileSize, chunkSize);
    } else {
      OverflowingPlan(fileSize, chunkSize);
    }
  }

  lemma CollectedTiles(fileSize: int, chunkSize: int, ranges: map<int, Range>)
    requires 0 < fileSize <= MAX_INT64 && IsInt64(chunkSize)
    requires var plan := PickUploadMode(fileSize, chunkSize);
             Collected(fileSize, plan, if plan.totalParts <= 0 then 1 else plan.totalParts, ranges)
    ensures var plan := PickUploadMode(fileSize, chunkSize);
            PlanFits(fileSize, chunkSize) ==> Tiles(ranges, plan.totalParts, fileSize)
  {
    PlanShape(fileSize, chunkSize);
    hide PickUploadMode, PartRange, Tiles, PlanFits;
    if PlanFits(fileSize, chunkSize) {
      PlanTiles(fileSize, chunkSize, ranges);
    }
  }

  /** The part list the client sends to Complete, and the server's answer to it. */
  method Finish(plan: Plan, put: set<int>, tag: int -> string) returns (accepted: bool)
    requires forall n <- put :: tag(n) != "" && Trimmed(tag(n))
    requires forall n | 1 <= n <= plan.totalParts :: n in put
    ensures accepted <==> plan.totalParts >= 1
  {
    var parts: seq<Part> := [];
    for n := 1 to if plan.totalParts < 1 then 1 else plan.totalParts + 1
      invariant |parts| == n - 1 && forall k | 0 <= k < |parts| :: parts[k] == Part(k + 1, tag(k + 1))
    {
      parts := parts + [Part(n, tag(n))];
    }
    var normalized := NormalizeCompletedParts(parts);
    assert forall p <- parts :: p.number in put && p.etag == tag(p.number);
    accepted := normalized.Some?;
  }

  lemma PlanHasParts(fileSize: int, chunkSize: int)
    requires 0 < fileSize <= MAX_INT64 && IsInt64(chunkSize) && PlanFits(fileSize, chunkSize)
    ensures var plan := PickUploadMode(fileSize, chunkSize);
            plan.totalParts >= 1 && forall n | 1 <= n <= plan.totalParts :: PartRange(fileSize, plan, n).length > 0
  {
    var plan := PickUploadMode(fileSize, chunkSize);
    if !plan.single {
      RoundedUp(fileSize, plan.partSize);
      forall n | 1 <= n <= plan.totalParts ensures PartRange(fileSize, plan, n).length > 0 {
        PartRangeIsExact(fileSize, chunkSize, n);
      }
    }
  }
}
