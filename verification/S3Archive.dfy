/** The durable audit archive: every sealed record is one object in a bucket, under a key made from
    its position. The bucket outlives the process; the chain tip is read back from it at start. An
    object is JSON; the bucket here holds, for each, the record its decoding yields. */
module S3Archive {
  import opened Wrappers
  import opened Text
  import opened Sorting
  import opened Utf8
  import opened Audit
  import opened AuditJson

  const PREFIX := "audit/"
  const SUFFIX := ".json"
  const MAX_INT64 := 9223372036854775807

  // ----- Object keys -----

  function ZeroPadded(s: string, width: nat): string
    decreases width - |s|
  {
    if |s| >= width then s else ZeroPadded("0" + s, width)
  }

  function KeyForSeq(n: nat): string { PREFIX + ZeroPadded(Digits(n), 20) + SUFFIX }

  function TrimPrefix(s: string, p: string): string { if p <= s then s[|p|..] else s }

  function TrimSuffix(s: string, p: string): string {
    if |p| <= |s| && s[|s| - |p|..] == p then s[..|s| - |p|] else s
  }

  /** strconv.ParseInt in base ten for 64 bits; None is its error. */
  function ParseInt64(s: string): Option<int> {
    var neg := s != "" && s[0] == '-';
    var digits := if s != "" && (s[0] == '-' || s[0] == '+') then s[1..] else s;
    if digits == "" || !AllDigits(digits) then None
    else
      var n: int := Value(digits);
      if neg then (if n <= MAX_INT64 + 1 then Some(-n) else None) else if n <= MAX_INT64 then Some(n) else None
  }

  /** A printed number is read back, unless it does not fit. */
  lemma ParsePrinted(i: int)
    ensures ParseInt64(Decimal(i)) == if -MAX_INT64 - 1 <= i <= MAX_INT64 then Some(i) else None
  {
    var n: nat := if i < 0 then -i else i;
    ValueOfDigits(n);
    assert i < 0 ==> Decimal(i)[1..] == Digits(n);
    assert i >= 0 ==> IsDigit(Decimal(i)[0]);
  }

  function SeqFromKey(key: string): int {
    match ParseInt64(TrimSuffix(TrimPrefix(key, PREFIX), SUFFIX))
    case None => 0
    case Some(n) => n
  }

  lemma {:induction false} LeadingZero(s: string)
    requires AllDigits(s)
    ensures AllDigits("0" + s) && Value("0" + s) == Value(s)
  {
    if s == "" {
      assert "0" + s == "0" && Value("0"[..0]) == 0;
    } else {
      var n := |s| - 1;
      assert ("0" + s)[..n + 1] == "0" + s[..n];
      LeadingZero(s[..n]);
    }
  }

  lemma {:induction false} PaddedValue(s: string, width: nat)
    requires AllDigits(s)
    ensures AllDigits(ZeroPadded(s, width)) && Value(ZeroPadded(s, width)) == Value(s)
    ensures |s| <= width ==> |ZeroPadded(s, width)| == width
    decreases width - |s|
  {
    if |s| < width {
      LeadingZero(s);
      PaddedValue("0" + s, width);
    }
  }

  function Pow10(k: nat): nat { if k == 0 then 1 else 10 * Pow10(k - 1) }

  lemma {:induction false} DigitCount(n: nat, k: nat)
    requires k >= 1 && n < Pow10(k)
    ensures |Digits(n)| <= k
  {
    if n >= 10 {
      DigitCount(n / 10, k - 1);
    }
  }

  lemma DigitCount20(n: nat)
    requires n <= MAX_INT64
    ensures |Digits(n)| <= 20
  {
    assert Pow10(5) == 100000;
    assert Pow10(10) == 10000000000;
    assert Pow10(15) == 1000000000000000;
    assert Pow10(20) == 100000000000000000000;
    DigitCount(n, 20);
  }

  /** Every position a 64-bit counter reaches fits the padding, and comes back from its key. */
  lemma KeyRoundTrip(n: nat)
    requires n <= MAX_INT64
    ensures SeqFromKey(KeyForSeq(n)) == n
    ensures PREFIX <= KeyForSeq(n) && |KeyForSeq(n)| == 31
  {
    DigitCount20(n);
    PaddedValue(Digits(n), 20);
    ValueOfDigits(n);
    var d := ZeroPadded(Digits(n), 20);
    assert TrimPrefix(KeyForSeq(n), PREFIX) == d + SUFFIX;
    assert (d + SUFFIX)[|d + SUFFIX| - |SUFFIX|..] == SUFFIX;
    assert TrimSuffix(d + SUFFIX, SUFFIX) == d;
    assert IsDigit(d[0]);
  }

  lemma {:induction false} SamePrefix(p: string, a: string, b: string)
    ensures Less(p + a, p + b) <==> Less(a, b)
  {
    if p == "" {
      assert p + a == a && p + b == b;
    } else {
      assert (p + a)[1..] == p[1..] + a && (p + b)[1..] == p[1..] + b;
      SamePrefix(p[1..], a, b);
    }
  }

  lemma {:induction false} SameSuffix(a: string, b: string, t: string)
    requires |a| == |b|
    ensures Less(a + t, b + t) <==> Less(a, b)
  {
    if a == "" {
      LessIrreflexive(t);
      assert a + t == t && b + t == t;
    } else {
      assert (a + t)[1..] == a[1..] + t && (b + t)[1..] == b[1..] + t;
      SameSuffix(a[1..], b[1..], t);
    }
  }

  lemma Wrapped(p: string, a: string, b: string, t: string)
    requires |a| == |b|
    ensures Less(p + a + t, p + b + t) <==> Less(a, b)
    ensures p + a + t == p + b + t <==> a == b
  {
    SamePrefix(p, a + t, b + t);
    SameSuffix(a, b, t);
    Regroup(p, a, t);
    Regroup(p, b, t);
    Middle(p, a, t);
    Middle(p, b, t);
  }

  lemma Regroup(p: string, a: string, t: string)
    ensures p + a + t == p + (a + t)
  {
  }

  lemma Middle(p: string, a: string, t: string)
    ensures (p + a + t)[|p|..|p| + |a|] == a
  {
  }

  lemma PaddedOrder(m: nat, n: nat)
    requires m <= MAX_INT64 && n <= MAX_INT64
    ensures var a, b := ZeroPadded(Digits(m), 20), ZeroPadded(Digits(n), 20);
            |a| == 20 == |b| && (Less(a, b) <==> m < n) && (a == b <==> m == n)
  {
    DigitCount20(m);
    DigitCount20(n);
    PaddedValue(Digits(m), 20);
    PaddedValue(Digits(n), 20);
    ValueOfDigits(m);
    ValueOfDigits(n);
    SameWidthOrder(ZeroPadded(Digits(m), 20), ZeroPadded(Digits(n), 20));
  }

  /** Lexical order of keys is numeric order of positions. */
  lemma KeyOrder(m: nat, n: nat)
    requires m <= MAX_INT64 && n <= MAX_INT64
    ensures Less(KeyForSeq(m), KeyForSeq(n)) <==> m < n
    ensures KeyForSeq(m) == KeyForSeq(n) <==> m == n
  {
    PaddedOrder(m, n);
    Wrapped(PREFIX, ZeroPadded(Digits(m), 20), ZeroPadded(Digits(n), 20), SUFFIX);
  }

  // ----- The archive as a value -----

  datatype State = State(seqNo: int, lastHash: string, objects: map<string, Record>)

  /** seqNo and lastHash are what a scan of the objects finds: the greatest position and the hash
      of the record there. */
  ghost predicate IsTip(objects: map<string, Record>, seqNo: int, lastHash: string) {
    && 0 <= seqNo
    && (forall k | k in objects && PREFIX <= k :: SeqFromKey(k) <= seqNo)
    && (if seqNo == 0 then lastHash == ""
        else exists k :: k in objects && PREFIX <= k && SeqFromKey(k) == seqNo && lastHash == objects[k].hash)
  }

  /** Under k stands a record of the log, k being the key of its position. */
  ghost predicate Filed(objects: map<string, Record>, log: seq<Record>, k: string)
    requires k in objects
  {
    var n := objects[k].seqNo;
    1 <= n <= |log| && log[n - 1] == objects[k] && k == KeyForSeq(n)
  }

  /** Record i of the log stands under the key of its position. */
  ghost predicate Present(objects: map<string, Record>, log: seq<Record>, i: nat)
    requires i < |log|
  {
    KeyForSeq(i + 1) in objects && objects[KeyForSeq(i + 1)] == log[i]
  }

  /** The bucket holds the log, each record under the key of its position, and nothing else. */
  ghost predicate Stores(objects: map<string, Record>, log: seq<Record>) {
    && Numbered(log) && |log| <= MAX_INT64
    && (forall k {:trigger Filed(objects, log, k)} | k in objects :: Filed(objects, log, k))
    && (forall i {:trigger Present(objects, log, i)} | 0 <= i < |log| :: Present(objects, log, i))
  }

  ghost predicate Represents(st: State, log: seq<Record>) {
    Stores(st.objects, log) && st.seqNo == |log| && st.lastHash == Tip(log)
  }

  /** Recording, the object being the sealed record's JSON; when the put fails nothing has happened. */
  ghost function Put(digest: Record -> string, st: State, e: Event, now: int, putOk: bool): State
    requires 0 <= st.seqNo
  {
    var r := Seal(digest, st.seqNo + 1, st.lastHash, e, now);
    if putOk then State(r.seqNo, r.hash, st.objects[KeyForSeq(r.seqNo) := AsJson(r)]) else st
  }

  lemma PutStores(objects: map<string, Record>, log: seq<Record>, r: Record)
    requires Stores(objects, log) && |log| < MAX_INT64 && r.seqNo == |log| + 1
    ensures Stores(objects[KeyForSeq(r.seqNo) := r], log + [r])
  {
    var objects2, log2 := objects[KeyForSeq(r.seqNo) := r], log + [r];
    forall k | k in objects2 ensures Filed(objects2, log2, k) {
      assert k != KeyForSeq(r.seqNo) ==> Filed(objects, log, k);
    }
    forall i | 0 <= i < |log2| ensures Present(objects2, log2, i) {
      if i < |log| {
        KeyOrder(i + 1, r.seqNo);
        assert Present(objects, log, i);
      }
    }
  }

  /** Digests are readable text, as hexadecimal digits are. */
  ghost predicate Readable(digest: Record -> string) { forall r :: ValidText(digest(r)) }

  lemma ReadTip(log: seq<Record>)
    requires ValidText(Tip(log))
    ensures Tip(AsRead(log)) == Tip(log)
  {
    if log != [] { SurvivesIffValid(Tip(log)); }
  }

  lemma AsReadSnoc(log: seq<Record>, r: Record)
    ensures AsRead(log + [r]) == AsRead(log) + [AsJson(r)]
  {
  }

  /** A put that succeeds adds to what is read back the next record of the log, read back. */
  lemma PutRefines(digest: Record -> string, st: State, log: seq<Record>, e: Event, now: int, putOk: bool)
    requires Readable(digest) && ValidText(Tip(log)) && Represents(st, AsRead(log)) && |log| < MAX_INT64
    ensures var log2 := if putOk then Appended(digest, log, e, now) else log;
            ValidText(Tip(log2)) && Represents(Put(digest, st, e, now, putOk), AsRead(log2))
  {
    if putOk {
      var r := Seal(digest, |log| + 1, Tip(log), e, now);
      ReadTip(log);
      assert Put(digest, st, e, now, putOk) == State(r.seqNo, r.hash, st.objects[KeyForSeq(r.seqNo) := AsJson(r)]);
      PutStores(st.objects, AsRead(log), AsJson(r));
      AsReadSnoc(log, r);
      assert r.hash == digest(Unsealed(|log| + 1, Tip(log), e, now));
      SurvivesIffValid(r.hash);
    }
  }

  /** Scanning the bucket of a log recovers the log's length and tip. */
  lemma TipRefines(objects: map<string, Record>, log: seq<Record>, seqNo: int, lastHash: string)
    requires Stores(objects, log) && IsTip(objects, seqNo, lastHash)
    ensures Represents(State(seqNo, lastHash, objects), log)
  {
    if log != [] {
      assert Present(objects, log, |log| - 1);
      KeyRoundTrip(|log|);
    }
    if seqNo != 0 {
      var k :| k in objects && PREFIX <= k && SeqFromKey(k) == seqNo && lastHash == objects[k].hash;
      assert Filed(objects, log, k);
      KeyRoundTrip(objects[k].seqNo);
    }
  }

  // ----- Every run of recordings and restarts refines the in-memory logger -----

  datatype Op = DoRecord(e: Event, now: int, putOk: bool) | Restart(seqNo: int, lastHash: string)

  ghost predicate IsRun(digest: Record -> string, run: seq<State>, ops: seq<Op>) {
    && |run| == |ops| + 1 && run[0] == State(0, "", map[]) && |ops| <= MAX_INT64
    && forall i | 0 <= i < |ops| :: Moves(digest, run, ops, i)
  }

  ghost predicate Moves(digest: Record -> string, run: seq<State>, ops: seq<Op>, i: nat)
    requires i < |ops| < |run|
  {
    OpStep(digest, run[i], ops[i], run[i + 1])
  }

  ghost predicate OpStep(digest: Record -> string, st: State, op: Op, st2: State) {
    0 <= st.seqNo &&
    match op
    case DoRecord(e, now, putOk) => st2 == Put(digest, st, e, now, putOk)
    case Restart(seqNo, lastHash) => IsTip(st.objects, seqNo, lastHash) && st2 == State(seqNo, lastHash, st.objects)
  }

  /** The log an in-memory logger has once it has been given the recordings that succeeded. */
  ghost function LogAfter(digest: Record -> string, ops: seq<Op>): seq<Record> {
    if ops == [] then [] else LogNext(digest, LogAfter(digest, ops[..|ops| - 1]), ops[|ops| - 1])
  }

  ghost function LogNext(digest: Record -> string, log: seq<Record>, op: Op): seq<Record> {
    if op.DoRecord? && op.putOk then Appended(digest, log, op.e, op.now) else log
  }

  lemma StepRefines(digest: Record -> string, st: State, log: seq<Record>, op: Op, st2: State)
    requires Readable(digest) && OpStep(digest, st, op, st2)
    requires |log| < MAX_INT64 && ValidText(Tip(log)) && Represents(st, AsRead(log))
    ensures var log2 := LogNext(digest, log, op);
            Represents(st2, AsRead(log2)) && ValidText(Tip(log2)) && |log2| <= |log| + 1
  {
    match op
    case DoRecord(e, now, putOk) => PutRefines(digest, st, log, e, now, putOk);
    case Restart(seqNo, lastHash) =>
      TipRefines(st.objects, AsRead(log), seqNo, lastHash);
  }

  /** After any run the archive reads back, record by record through JSON, the log an in-memory logger
      builds from the successful recordings, and is ready to go on with it. */
  lemma {:induction false} RunRefines(digest: Record -> string, run: seq<State>, ops: seq<Op>, n: nat)
    requires Readable(digest) && IsRun(digest, run, ops) && n <= |ops|
    ensures var log := LogAfter(digest, ops[..n]);
            Represents(run[n], AsRead(log)) && ValidText(Tip(log)) && |log| <= n
  {
    if n > 0 {
      RunRefines(digest, run, ops, n - 1);
      NextRefines(digest, run, ops, n, LogAfter(digest, ops[..n - 1]));
      LogAfterNext(digest, ops, n);
    }
  }

  lemma LogAfterNext(digest: Record -> string, ops: seq<Op>, n: nat)
    requires 0 < n <= |ops|
    ensures LogAfter(digest, ops[..n]) == LogNext(digest, LogAfter(digest, ops[..n - 1]), ops[n - 1])
  {
    assert ops[..n][..n - 1] == ops[..n - 1];
  }

  lemma NextRefines(digest: Record -> string, run: seq<State>, ops: seq<Op>, n: nat, log: seq<Record>)
    requires Readable(digest) && IsRun(digest, run, ops) && 0 < n <= |ops|
    requires |log| <= n - 1 && ValidText(Tip(log)) && Represents(run[n - 1], AsRead(log))
    ensures var log2 := LogNext(digest, log, ops[n - 1]);
            Represents(run[n], AsRead(log2)) && ValidText(Tip(log2)) && |log2| <= n
  {
    assert Moves(digest, run, ops, n - 1);
    StepRefines(digest, run[n - 1], log, ops[n - 1], run[n]);
  }

  // ----- When the archive is the in-memory logger's equal -----

  ghost predicate EventSurvives(e: Event) {
    ValidText(e.org) && ValidText(e.actor) && ValidText(e.action) && ValidText(e.target) && MetaSurvives(e.metadata)
  }

  /** Whatever was recorded with success is well-formed text. */
  ghost predicate KeptSurvive(ops: seq<Op>) { forall i | 0 <= i < |ops| :: KeptSurvivesAt(ops, i) }

  ghost predicate KeptSurvivesAt(ops: seq<Op>, i: nat)
    requires i < |ops|
  {
    ops[i].DoRecord? && ops[i].putOk ==> EventSurvives(ops[i].e)
  }

  lemma {:induction false} LogIsChained(h: Hash, ops: seq<Op>)
    ensures Chained(Digest(h), LogAfter(Digest(h), ops)) && Numbered(LogAfter(Digest(h), ops))
  {
    if ops != [] {
      var p, op := ops[..|ops| - 1], ops[|ops| - 1];
      LogIsChained(h, p);
      DigestIgnoresHash(h);
      if op.DoRecord? && op.putOk { AppendKeepsChain(Digest(h), LogAfter(Digest(h), p), op.e, op.now); }
    }
  }

  lemma {:induction false} LogSurvivesIffKept(digest: Record -> string, ops: seq<Op>)
    requires Readable(digest)
    ensures AllSurvive(LogAfter(digest, ops)) <==> KeptSurvive(ops)
    ensures ValidText(Tip(LogAfter(digest, ops)))
  {
    if ops != [] {
      var n := |ops| - 1;
      var log, log2 := LogAfter(digest, ops[..n]), LogAfter(digest, ops);
      LogSurvivesIffKept(digest, ops[..n]);
      assert forall i | 0 <= i < n :: KeptSurvivesAt(ops[..n], i) <==> KeptSurvivesAt(ops, i);
      assert KeptSurvive(ops) <==> KeptSurvive(ops[..n]) && KeptSurvivesAt(ops, n);
      if ops[n].DoRecord? && ops[n].putOk {
        LastSurvivesIff(digest, log, ops[n].e, ops[n].now);
      }
    }
  }

  lemma LastSurvivesIff(digest: Record -> string, log: seq<Record>, e: Event, now: int)
    requires Readable(digest) && ValidText(Tip(log))
    ensures var log2 := Appended(digest, log, e, now);
            (AllSurvive(log2) <==> AllSurvive(log) && EventSurvives(e)) && ValidText(Tip(log2))
  {
    var r := Seal(digest, |log| + 1, Tip(log), e, now);
    assert r.hash == digest(Unsealed(|log| + 1, Tip(log), e, now));
    assert Survives(r) <==> EventSurvives(e);
    assert forall i | 0 <= i < |log| :: (log + [r])[i] == log[i];
    assert (log + [r])[|log|] == r;
  }

  /** What a bucket represents is one log. */
  lemma RepresentsOne(st: State, a: seq<Record>, b: seq<Record>)
    requires Represents(st, a) && Represents(st, b)
    ensures a == b
  {
    forall i | 0 <= i < |a| ensures a[i] == b[i] { assert Present(st.objects, a, i) && Present(st.objects, b, i); }
  }

  /** In any state of any run, the archive holds the in-memory logger's log, verifies, and lists what
      that logger lists, exactly when all that was recorded is well-formed text. */
  lemma ArchiveAgreesIff(h: Hash, run: seq<State>, ops: seq<Op>, n: nat)
    requires IdealHash(h) && IsRun(Digest(h), run, ops) && n <= |ops|
    ensures var log := LogAfter(Digest(h), ops[..n]);
            && Represents(run[n], AsRead(log))
            && (Represents(run[n], log) <==> KeptSurvive(ops[..n]))
            && (Chained(Digest(h), AsRead(log)) <==> KeptSurvive(ops[..n]))
            && ((forall org, limit :: Listed(AsRead(log), org, limit) == Listed(log, org, limit)) <==>
                KeptSurvive(ops[..n]))
  {
    var log := LogAfter(Digest(h), ops[..n]);
    forall r ensures ValidText(Digest(h)(r)) { DigestIsReadable(h, r); }
    RunRefines(Digest(h), run, ops, n);
    LogSurvivesIffKept(Digest(h), ops[..n]);
    LogIsChained(h, ops[..n]);
    ChainsAreReadable(h, log);
    LogSurvivesIff(log);
    VerifiesIffSurvives(h, log);
    ListedIffSurvives(log);
    if Represents(run[n], log) { RepresentsOne(run[n], AsRead(log), log); }
  }

  // ----- Reading everything back -----

  predicate BySeq(r: Record, s: Record) { r.seqNo < s.seqNo }

  /** keys are the audit keys in the bucket, in any order. */
  ghost predicate Lists(keys: seq<string>, objects: map<string, Record>) {
    && (forall k :: k in keys <==> k in objects && PREFIX <= k)
    && (forall i, j | 0 <= i < j < |keys| :: keys[i] != keys[j])
  }

  function Fetch(objects: map<string, Record>, keys: seq<string>): (xs: seq<Record>)
    requires forall k | k in keys :: k in objects
    ensures |xs| == |keys| && forall i | 0 <= i < |keys| :: xs[i] == objects[keys[i]]
  {
    seq(|keys|, i requires 0 <= i < |keys| => objects[keys[i]])
  }

  lemma FetchedAt(keys: seq<string>, objects: map<string, Record>, log: seq<Record>, i: nat)
    requires Stores(objects, log) && Lists(keys, objects) && i < |keys|
    ensures Fetch(objects, keys)[i] in log && keys[i] == KeyForSeq(Fetch(objects, keys)[i].seqNo)
  {
    assert keys[i] in keys;
    assert Filed(objects, log, keys[i]);
  }

  lemma FetchedAll(keys: seq<string>, objects: map<string, Record>, log: seq<Record>, i: nat)
    requires Stores(objects, log) && Lists(keys, objects) && i < |log|
    ensures log[i] in Fetch(objects, keys)
  {
    assert Present(objects, log, i);
    KeyRoundTrip(i + 1);
    assert KeyForSeq(i + 1) in keys;
    var j :| 0 <= j < |keys| && keys[j] == KeyForSeq(i + 1);
    assert Fetch(objects, keys)[j] == log[i];
  }

  lemma FetchedDiffer(keys: seq<string>, objects: map<string, Record>, log: seq<Record>, i: nat, j: nat)
    requires Stores(objects, log) && Lists(keys, objects) && i < j < |keys|
    ensures Fetch(objects, keys)[i].seqNo != Fetch(objects, keys)[j].seqNo
  {
    FetchedAt(keys, objects, log, i);
    FetchedAt(keys, objects, log, j);
    assert keys[i] != keys[j];
  }

  /** Sorted by position, the records fetched from the bucket of a log are the log. */
  lemma FetchedIsLog(keys: seq<string>, objects: map<string, Record>, log: seq<Record>)
    requires Stores(objects, log) && Lists(keys, objects)
    ensures Sort(Fetch(objects, keys), BySeq) == log
  {
    var xs := Fetch(objects, keys);
    forall i | 0 <= i < |xs| ensures xs[i] in log { FetchedAt(keys, objects, log, i); }
    forall i | 0 <= i < |log| ensures log[i] in xs { FetchedAll(keys, objects, log, i); }
    forall i, j | 0 <= i < j < |xs|
      ensures BySeq(xs[i], xs[j]) || BySeq(xs[j], xs[i])
    {
      FetchedDiffer(keys, objects, log, i, j);
    }
    SortsTo(xs, log);
  }

  lemma SortsTo(xs: seq<Record>, log: seq<Record>)
    requires Numbered(log) && Comparable(xs, BySeq)
    requires (forall r | r in xs :: r in log) && (forall r | r in log :: r in xs)
    ensures Sort(xs, BySeq) == log
  {
    SortSorts(xs, BySeq);
    SortedUnique(Sort(xs, BySeq), log, BySeq);
  }

  /** recs are the records of the bucket, put in order of position. */
  ghost predicate Reads(recs: seq<Record>, objects: map<string, Record>) {
    exists keys :: Lists(keys, objects) && recs == Sort(Fetch(objects, keys), BySeq)
  }

  lemma ReadsTheLog(recs: seq<Record>, objects: map<string, Record>, log: seq<Record>)
    requires Stores(objects, log) && Reads(recs, objects)
    ensures recs == log
  {
    var keys :| Lists(keys, objects) && recs == Sort(Fetch(objects, keys), BySeq);
    FetchedIsLog(keys, objects, log);
  }

  // ----- The archive over its bucket -----

  class Bucket {
    var objects: map<string, Record>

    constructor ()
      ensures objects == map[]
    {
      objects := map[];
    }

    /** The keys with the audit prefix, in some order. */
    method ListObjects() returns (keys: seq<string>)
      ensures Lists(keys, objects)
    {
      keys := [];
      var rest := objects.Keys;
      while rest != {}
        invariant rest <= objects.Keys
        invariant forall k :: k in keys <==> k in objects.Keys - rest && PREFIX <= k
        invariant forall i, j | 0 <= i < j < |keys| :: keys[i] != keys[j]
        decreases rest
      {
        var k :| k in rest;
        assert k !in keys;
        if PREFIX <= k { keys := keys + [k]; }
        rest := rest - {k};
      }
    }
  }

  class Archive {
    const bucket: Bucket
    const hash: Hash
    var seqNo: int
    var lastHash: string

    ghost function View(): State reads this, bucket { State(seqNo, lastHash, bucket.objects) }

    /** Opens the archive on an existing bucket, reading the chain tip back from it. */
    constructor (bucket: Bucket, hash: Hash)
      ensures this.bucket == bucket && this.hash == hash
      ensures IsTip(bucket.objects, seqNo, lastHash)
    {
      this.bucket, this.hash := bucket, hash;
      seqNo, lastHash := 0, "";
      new;
      var keys := bucket.ListObjects();
      var tipKey := "";
      for i := 0 to |keys|
        invariant 0 <= seqNo && lastHash == ""
        invariant forall k | k in keys[..i] :: SeqFromKey(k) <= seqNo
        invariant seqNo > 0 ==> tipKey in keys[..i] && SeqFromKey(tipKey) == seqNo
      {
        var s := SeqFromKey(keys[i]);
        if s > seqNo { seqNo, tipKey := s, keys[i]; }
      }
      assert keys[..|keys|] == keys;
      if seqNo > 0 { lastHash := bucket.objects[tipKey].hash; }
    }

    /** Seals the event into the chain and stores it; putOk is whether the store accepts the object. */
    method RecordEvent(e: Event, now: int, putOk: bool) returns (ok: bool)
      requires 0 <= seqNo < MAX_INT64
      modifies this, bucket
      ensures ok == putOk && View() == Put(Digest(hash), old(View()), e, now, putOk)
    {
      var r := Unsealed(seqNo + 1, lastHash, e, now);
      var sum := HashRecord(hash, r);
      r := r.(hash := sum);
      var body := WriteAndRead(r);
      if !putOk { return false; }
      bucket.objects := bucket.objects[KeyForSeq(r.seqNo) := body];
      seqNo, lastHash := r.seqNo, r.hash;
      return true;
    }

    method All() returns (recs: seq<Record>)
      ensures Reads(recs, bucket.objects)
    {
      var keys := bucket.ListObjects();
      var xs := [];
      for i := 0 to |keys|
        invariant xs == Fetch(bucket.objects, keys)[..i]
      {
        assert keys[i] in keys;
        xs := xs + [bucket.objects[keys[i]]];
      }
      assert xs == Fetch(bucket.objects, keys);
      recs := Sort(xs, BySeq);
    }

    /** The same answer the in-memory logger gives for the log the archive represents. */
    method List(org: string, limit: int, ghost log: seq<Record>) returns (out: seq<Record>)
      requires Represents(View(), log)
      ensures out == Listed(log, org, limit)
    {
      var recs := All();
      ReadsTheLog(recs, bucket.objects, log);
      out := ListRecords(recs, org, limit);
    }

    /** Whether what is stored, put in order of position, is a chain; for a represented log, whether
        the log is. */
    method Verify() returns (ok: bool)
      ensures exists recs :: Reads(recs, bucket.objects) && (ok <==> Chained(Digest(hash), recs))
      ensures forall log | Represents(View(), log) :: ok <==> Chained(Digest(hash), log)
    {
      var recs := All();
      forall log | Represents(View(), log) ensures recs == log { ReadsTheLog(recs, bucket.objects, log); }
      ok := VerifyRecords(hash, recs);
    }
  }
}
