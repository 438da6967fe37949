/** An audit record as it comes back from JSON, and which records come back as they were. */
module AuditJson {
  import opened Wrappers
  import opened Text
  import opened Sorting
  import opened Utf8
  import opened Audit

  /** Metadata written key by key in order; a key met again overrides. */
  function Reread(m: Metadata, keys: seq<string>): Metadata
    requires forall k | k in keys :: k in m
  {
    if keys == [] then map[]
    else
      var k := keys[|keys| - 1];
      Reread(m, keys[..|keys| - 1])[ToValid(k) := ToValid(m[k])]
  }

  ghost function MetaAsJson(m: Metadata): Metadata {
    SortedKeysUnique(AnyOrder(m.Keys), m.Keys);
    Reread(m, SortedKeys(m.Keys))
  }

  /** The record written as JSON and read back. */
  ghost function AsJson(r: Record): Record {
    Record(r.seqNo, ToValid(r.prevHash), ToValid(r.org), ToValid(r.actor), ToValid(r.action), ToValid(r.target), r.time,
           MetaAsJson(r.metadata), ToValid(r.hash))
  }

  method WriteAndRead(r: Record) returns (j: Record)
    ensures j == AsJson(r)
  {
    var m := MetaThrough(r.metadata);
    j := Record(r.seqNo, ToValid(r.prevHash), ToValid(r.org), ToValid(r.actor), ToValid(r.action), ToValid(r.target),
                r.time, m, ToValid(r.hash));
  }

  method MetaThrough(m: Metadata) returns (n: Metadata)
    ensures n == MetaAsJson(m)
  {
    var keys := CollectKeys(m);
    n := map[];
    for i := 0 to |keys|
      invariant n == Reread(m, keys[..i])
    {
      RereadNext(m, keys, i);
      n := n[ToValid(keys[i]) := ToValid(m[keys[i]])];
    }
    assert keys[..|keys|] == keys;
  }

  lemma RereadNext(m: Metadata, keys: seq<string>, i: nat)
    requires i < |keys| && forall k | k in keys :: k in m
    ensures Reread(m, keys[..i + 1]) == Reread(m, keys[..i])[ToValid(keys[i]) := ToValid(m[keys[i]])]
  {
    assert keys[..i + 1][..i] == keys[..i];
  }

  /** Of the keys, the last one that reads as k. */
  ghost predicate LastReadAs(keys: seq<string>, i: nat, k: string)
    requires i < |keys|
  {
    ToValid(keys[i]) == k && forall j | i < j < |keys| :: ToValid(keys[j]) != k
  }

  lemma {:induction false} RereadHas(m: Metadata, keys: seq<string>, k: string)
    requires forall x | x in keys :: x in m
    ensures k in Reread(m, keys) <==> exists i :: 0 <= i < |keys| && LastReadAs(keys, i, k)
    ensures forall i | 0 <= i < |keys| && LastReadAs(keys, i, k) :: Reread(m, keys)[k] == ToValid(m[keys[i]])
  {
    if keys != [] {
      var n := |keys| - 1;
      RereadHas(m, keys[..n], k);
      if ToValid(keys[n]) == k {
        assert LastReadAs(keys, n, k);
      } else {
        forall i | 0 <= i < n ensures LastReadAs(keys, i, k) <==> LastReadAs(keys[..n], i, k) {
          assert LastReadAs(keys[..n], i, k) ==> forall j | i < j < n :: ToValid(keys[..n][j]) != k;
          assert LastReadAs(keys, i, k) ==> forall j | i < j < n :: ToValid(keys[j]) != k;
        }
      }
    }
  }

  /** x reads as k, and of the keys of m that do it comes last in byte order. */
  ghost predicate GreatestReadAs(m: Metadata, x: string, k: string) {
    x in m && ToValid(x) == k && forall y | y in m && ToValid(y) == k :: y == x || Less(y, x)
  }

  lemma GreatestIsLast(m: Metadata, keys: seq<string>, i: nat, x: string, k: string)
    requires Sorted(keys, Less) && (forall y :: y in keys <==> y in m)
    requires i < |keys| && LastReadAs(keys, i, k) && GreatestReadAs(m, x, k)
    ensures keys[i] == x
  {
    LessIsStrictOrder();
    assert keys[i] in keys;
    var j :| 0 <= j < |keys| && keys[j] == x;
    if j < i { assert Less(keys[j], keys[i]); }
  }

  /** Metadata read back have the keys as read, and when several read alike the value of the last of them in
      byte order. */
  lemma LastKeyWins(m: Metadata, k: string)
    ensures k in MetaAsJson(m) <==> exists x :: x in m && ToValid(x) == k
    ensures forall x | GreatestReadAs(m, x, k) :: k in MetaAsJson(m) && MetaAsJson(m)[k] == ToValid(m[x])
  {
    var keys := SortedKeys(m.Keys);
    SortedKeysUnique(AnyOrder(m.Keys), m.Keys);
    RereadHas(m, keys, k);
    if x :| x in m && ToValid(x) == k {
      var i := LastOf(keys, k, x);
    }
    if i :| 0 <= i < |keys| && LastReadAs(keys, i, k) {
      assert keys[i] in keys;
      forall x | GreatestReadAs(m, x, k) ensures keys[i] == x { GreatestIsLast(m, keys, i, x, k); }
    }
  }

  lemma {:induction false} LastOf(keys: seq<string>, k: string, x: string) returns (i: nat)
    requires x in keys && ToValid(x) == k
    ensures i < |keys| && LastReadAs(keys, i, k)
  {
    var n := |keys| - 1;
    if ToValid(keys[n]) == k {
      i := n;
    } else {
      i := LastOf(keys[..n], k, x);
      assert forall j | i < j < n :: keys[..n][j] == keys[j];
    }
  }

  // ----- Which records survive -----

  ghost predicate MetaSurvives(m: Metadata) { forall k | k in m :: ValidText(k) && ValidText(m[k]) }

  /** The hashed strings of the record are well-formed text. */
  ghost predicate Survives(r: Record) {
    && ValidText(r.prevHash) && ValidText(r.org) && ValidText(r.actor) && ValidText(r.action) && ValidText(r.target)
    && MetaSurvives(r.metadata)
  }

  lemma {:induction false} RereadIsValid(m: Metadata, keys: seq<string>)
    requires forall k | k in keys :: k in m
    ensures MetaSurvives(Reread(m, keys))
  {
    if keys != [] {
      var k := keys[|keys| - 1];
      RereadIsValid(m, keys[..|keys| - 1]);
      ToValidIsValid(k);
      ToValidIsValid(m[k]);
    }
  }

  lemma {:induction false} RereadSurviving(m: Metadata, keys: seq<string>)
    requires (forall k | k in keys :: k in m) && MetaSurvives(m)
    ensures forall k :: k in Reread(m, keys) <==> k in keys
    ensures forall k | k in keys :: Reread(m, keys)[k] == m[k]
  {
    if keys != [] {
      var n := |keys| - 1;
      RereadSurviving(m, keys[..n]);
      assert keys == keys[..n] + [keys[n]];
      ValidStays(keys[n]);
      ValidStays(m[keys[n]]);
    }
  }

  lemma MetaSurvivesIff(m: Metadata)
    ensures MetaAsJson(m) == m <==> MetaSurvives(m)
    ensures MetaSurvives(MetaAsJson(m))
  {
    SortedKeysUnique(AnyOrder(m.Keys), m.Keys);
    RereadIsValid(m, SortedKeys(m.Keys));
    if MetaSurvives(m) { RereadSurviving(m, SortedKeys(m.Keys)); }
  }

  /** A record with a readable hash comes back as it was exactly when its strings are well-formed text;
      whatever comes back is. */
  lemma SurvivesIff(r: Record)
    requires ValidText(r.hash)
    ensures AsJson(r) == r <==> Survives(r)
    ensures Survives(AsJson(r)) && AsJson(r).hash == r.hash &&
            (ValidText(r.prevHash) ==> AsJson(r).prevHash == r.prevHash)
  {
    SurvivesIffValid(r.hash);
    SurvivesIffValid(r.prevHash);
    SurvivesIffValid(r.org);
    SurvivesIffValid(r.actor);
    SurvivesIffValid(r.action);
    SurvivesIffValid(r.target);
    MetaSurvivesIff(r.metadata);
    ToValidIsValid(r.prevHash);
    ToValidIsValid(r.org);
    ToValidIsValid(r.actor);
    ToValidIsValid(r.action);
    ToValidIsValid(r.target);
  }

  // ----- The hashed text is well formed exactly when the record's strings are -----

  lemma {:induction false} LinesValidIff(f: seq<string>, u: string)
    ensures ValidText(Lines(f, u)) <==> (forall i | 0 <= i < |f| :: ValidText(f[i])) && ValidText(u)
  {
    if f != [] {
      LinesValidIff(f[1..], u);
      ValidJoin(f[0], '\n', Lines(f[1..], u));
      assert f == [f[0]] + f[1..];
    }
  }

  lemma {:induction false} MetaTextValidIff(m: Metadata, keys: seq<string>)
    requires forall k | k in keys :: k in m
    ensures ValidText(MetaText(m, keys)) <==> forall k | k in keys :: ValidText(k) && ValidText(m[k])
  {
    if keys != [] {
      var k, rest := keys[0], MetaText(m, keys[1..]);
      MetaTextValidIff(m, keys[1..]);
      ValidJoin(k, '=', m[k]);
      ValidJoin(k + ['='] + m[k], '\n', rest);
      assert keys == [k] + keys[1..];
    }
  }

  lemma DecimalIsValid(i: int)
    ensures ValidText(Decimal(i))
  {
    AsciiIsValid(Decimal(i));
  }

  lemma HashTextValidIff(r: Record)
    ensures ValidText(HashText(r)) <==> Survives(r)
  {
    var f := Header(r);
    SortedKeysUnique(AnyOrder(r.metadata.Keys), r.metadata.Keys);
    MetaTextValidIff(r.metadata, SortedKeys(r.metadata.Keys));
    LinesValidIff(f, MetaPart(r.metadata));
    DecimalIsValid(r.seqNo);
    DecimalIsValid(r.time);
    assert forall i | 0 <= i < |f| :: f[i] == [f[0], r.prevHash, r.org, r.actor, r.action, r.target, f[6]][i];
    assert f[1] == r.prevHash && f[2] == r.org && f[3] == r.actor && f[4] == r.action && f[5] == r.target;
  }

  // ----- Logs -----

  ghost function AsRead(log: seq<Record>): (out: seq<Record>)
    ensures |out| == |log| && forall i | 0 <= i < |log| :: out[i] == AsJson(log[i])
  {
    seq(|log|, i requires 0 <= i < |log| => AsJson(log[i]))
  }

  ghost predicate AllSurvive(log: seq<Record>) { forall i | 0 <= i < |log| :: Survives(log[i]) }

  /** Hashes are readable text, as hexadecimal digits are. */
  ghost predicate ReadableHashes(log: seq<Record>) {
    forall i | 0 <= i < |log| :: ValidText(log[i].hash) && ValidText(log[i].prevHash)
  }

  lemma LogSurvivesIff(log: seq<Record>)
    requires ReadableHashes(log)
    ensures AsRead(log) == log <==> AllSurvive(log)
  {
    forall i | 0 <= i < |log| ensures AsRead(log)[i] == log[i] <==> Survives(log[i]) { SurvivesIff(log[i]); }
  }

  lemma DigestIsReadable(h: Hash, r: Record)
    requires IdealHash(h)
    ensures ValidText(Digest(h)(r))
  {
    var text := HashText(r);
    assert Digest(h)(r) == h(text);
  }

  lemma ChainsAreReadable(h: Hash, log: seq<Record>)
    requires IdealHash(h) && Chained(Digest(h), log)
    ensures ReadableHashes(log)
  {
    forall i | 0 <= i < |log| ensures ValidText(log[i].hash) && ValidText(log[i].prevHash) {
      assert Follows(Digest(h), log, i);
      DigestIsReadable(h, log[i]);
      if i > 0 {
        assert Follows(Digest(h), log, i - 1);
        DigestIsReadable(h, log[i - 1]);
      }
    }
  }

  lemma ReadBackSealed(h: Hash, r: Record)
    requires IdealHash(h) && r.hash == Digest(h)(r)
    ensures AsJson(r).hash == Digest(h)(AsJson(r)) <==> Survives(r)
  {
    DigestIsReadable(h, r);
    SurvivesIff(r);
    HashTextValidIff(r);
    HashTextValidIff(AsJson(r));
    assert Digest(h)(r) == h(HashText(r)) && Digest(h)(AsJson(r)) == h(HashText(AsJson(r)));
  }

  /** A verified log read back from JSON verifies exactly when all its text survives. */
  lemma VerifiesIffSurvives(h: Hash, log: seq<Record>)
    requires IdealHash(h) && Chained(Digest(h), log)
    ensures Chained(Digest(h), AsRead(log)) <==> AllSurvive(log)
  {
    ChainsAreReadable(h, log);
    LogSurvivesIff(log);
    if Chained(Digest(h), AsRead(log)) {
      forall i | 0 <= i < |log| ensures Survives(log[i]) {
        assert Follows(Digest(h), AsRead(log), i) && Follows(Digest(h), log, i);
        ReadBackSealed(h, log[i]);
      }
    }
  }

  lemma {:induction false} NewestFirstOf(log: seq<Record>, org: string, r: Record)
    ensures r in NewestFirst(log, org) <==> r in log && r.org == org
  {
    if log != [] {
      var n := |log| - 1;
      NewestFirstOf(log[..n], org, r);
      assert log == log[..n] + [log[n]];
    }
  }

  lemma MissedUnlessSurvives(log: seq<Record>, i: nat)
    requires ReadableHashes(log) && i < |log|
    requires NewestFirst(AsRead(log), log[i].org) == NewestFirst(log, log[i].org)
    ensures Survives(log[i])
  {
    var r := log[i];
    NewestFirstOf(log, r.org, r);
    NewestFirstOf(AsRead(log), r.org, r);
    var j :| 0 <= j < |log| && AsRead(log)[j] == r;
    SurvivesIff(log[j]);
  }

  /** It is listed alike for every organization and limit exactly then, too. */
  lemma ListedIffSurvives(log: seq<Record>)
    requires ReadableHashes(log)
    ensures (forall org, limit :: Listed(AsRead(log), org, limit) == Listed(log, org, limit)) <==> AllSurvive(log)
  {
    LogSurvivesIff(log);
    if forall org, limit :: Listed(AsRead(log), org, limit) == Listed(log, org, limit) {
      forall i | 0 <= i < |log| ensures Survives(log[i]) {
        assert Listed(AsRead(log), log[i].org, 0) == Listed(log, log[i].org, 0);
        MissedUnlessSurvives(log, i);
      }
    }
  }
}
