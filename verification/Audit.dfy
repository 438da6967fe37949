/** The hash-chained audit log: the text each record's hash is taken of, the in-memory logger, and
    what the chain gives away about tampering. The hash function is a parameter; where it matters it
    is assumed to be one-to-one, its results non-empty one-line text, standing for SHA-256. */
module Audit {
  import opened Wrappers
  import opened Text
  import opened Sorting
  import opened Utf8

  type Metadata = map<string, string>

  /** An event to record; its time is that of recording when none is given. */
  datatype Event = Event(time: Option<int>, org: string, actor: string, action: string, target: string,
                         metadata: Metadata)

  /** A sealed event, its time in nanoseconds since the Unix epoch. */
  datatype Record = Record(seqNo: int, prevHash: string, org: string, actor: string, action: string, target: string,
                           time: int, metadata: Metadata, hash: string)

  type Hash = string -> string

  ghost predicate IdealHash(h: Hash) {
    && (forall x, y :: h(x) == h(y) ==> x == y)
    && (forall x :: h(x) != "" && '\n' !in h(x) && ValidText(h(x)))
  }

  // ----- The text that is hashed -----

  /** Each field ended by a newline, then rest. */
  function Lines(fields: seq<string>, rest: string): string {
    if fields == [] then rest else fields[0] + ['\n'] + Lines(fields[1..], rest)
  }

  function Header(r: Record): seq<string> {
    [Decimal(r.seqNo), r.prevHash, r.org, r.actor, r.action, r.target, Decimal(r.time)]
  }

  /** One line "key=value" for each key, in the order given. */
  function MetaText(m: Metadata, keys: seq<string>): string
    requires forall k | k in keys :: k in m
  {
    if keys == [] then "" else keys[0] + ['='] + m[keys[0]] + ['\n'] + MetaText(m, keys[1..])
  }

  /** The keys in some order, as ranging over the map yields them. */
  ghost function AnyOrder(keys: set<string>): (xs: seq<string>)
    ensures forall k :: k in xs <==> k in keys
    ensures forall i, j | 0 <= i < j < |xs| :: xs[i] != xs[j]
  {
    if keys == {} then [] else var k :| k in keys; [k] + AnyOrder(keys - {k})
  }

  ghost function SortedKeys(keys: set<string>): seq<string> { Sort(AnyOrder(keys), Less) }

  lemma LessIsStrictOrder()
    ensures StrictOrder(Less)
  {
    forall x, y, z | Less(x, y) && Less(y, z) ensures Less(x, z) { LessTransitive(x, y, z); }
    forall x ensures !Less(x, x) { LessIrreflexive(x); }
  }

  /** Sorting the keys gives one sequence, whatever order they came in. */
  lemma SortedKeysUnique(xs: seq<string>, keys: set<string>)
    requires forall k :: k in xs <==> k in keys
    requires forall i, j | 0 <= i < j < |xs| :: xs[i] != xs[j]
    ensures Sort(xs, Less) == SortedKeys(keys)
    ensures forall k :: k in SortedKeys(keys) <==> k in keys
    ensures Sorted(SortedKeys(keys), Less)
  {
    LessIsStrictOrder();
    var ys := AnyOrder(keys);
    forall i, j | 0 <= i < j < |xs| ensures Less(xs[i], xs[j]) || Less(xs[j], xs[i]) { LessTotal(xs[i], xs[j]); }
    forall i, j | 0 <= i < j < |ys| ensures Less(ys[i], ys[j]) || Less(ys[j], ys[i]) { LessTotal(ys[i], ys[j]); }
    SortSorts(xs, Less);
    SortSorts(ys, Less);
    SortedUnique(Sort(xs, Less), Sort(ys, Less), Less);
  }

  ghost function MetaPart(m: Metadata): string {
    SortedKeysUnique(AnyOrder(m.Keys), m.Keys);
    MetaText(m, SortedKeys(m.Keys))
  }

  ghost function HashText(r: Record): string { Lines(Header(r), MetaPart(r.metadata)) }

  ghost function Digest(h: Hash): Record -> string { r => h(HashText(r)) }

  /** The text, written out: seven lines and the metadata's. */
  lemma HashTextSpelled(r: Record)
    ensures HashText(r) ==
            Decimal(r.seqNo) + "\n" + (r.prevHash + "\n" + (r.org + "\n" + (r.actor + "\n" + (r.action + "\n" +
            (r.target + "\n" + (Decimal(r.time) + "\n" + MetaPart(r.metadata)))))))
  {
    HeaderThen(Decimal(r.seqNo), r.prevHash, r.org, r.actor, r.action, r.target, Decimal(r.time), MetaPart(r.metadata));
  }

  lemma HeaderThen(a: string, b: string, c: string, d: string, e: string, f: string, g: string, rest: string)
    ensures Lines([a, b, c, d, e, f, g], rest) ==
            a + "\n" + (b + "\n" + (c + "\n" + (d + "\n" + (e + "\n" + (f + "\n" + (g + "\n" + rest))))))
  {
    LineThen(a, [b, c, d, e, f, g], rest);
    LineThen(b, [c, d, e, f, g], rest);
    LineThen(c, [d, e, f, g], rest);
    LineThen(d, [e, f, g], rest);
    LineThen(e, [f, g], rest);
    LineThen(f, [g], rest);
    LineThen(g, [], rest);
    assert [a] + [b, c, d, e, f, g] == [a, b, c, d, e, f, g];
  }

  lemma LineThen(line: string, lines: seq<string>, rest: string)
    ensures Lines([line] + lines, rest) == line + "\n" + Lines(lines, rest)
  {
  }

  /** The keys are collected in map order, sorted, and written out with their values. */
  method MetaLines(m: Metadata) returns (text: string)
    ensures text == MetaPart(m)
  {
    var keys := CollectKeys(m);
    text := WriteMeta(m, keys);
  }

  method CollectKeys(m: Metadata) returns (sorted: seq<string>)
    ensures sorted == SortedKeys(m.Keys) && forall k :: k in sorted <==> k in m
  {
    var keys := [];
    var rest := m.Keys;
    while rest != {}
      invariant rest <= m.Keys
      invariant forall k :: k in keys <==> k in m.Keys - rest
      invariant forall i, j | 0 <= i < j < |keys| :: keys[i] != keys[j]
      decreases rest
    {
      var k :| k in rest;
      assert k !in keys;
      keys := keys + [k];
      rest := rest - {k};
    }
    SortedKeysUnique(keys, m.Keys);
    sorted := Sort(keys, Less);
  }

  method WriteMeta(m: Metadata, keys: seq<string>) returns (text: string)
    requires forall k | k in keys :: k in m
    ensures text == MetaText(m, keys)
  {
    text := "";
    for i := 0 to |keys|
      invariant MetaText(m, keys) == text + MetaText(m, keys[i..])
    {
      text := text + (keys[i] + ['='] + m[keys[i]] + ['\n']);
      assert keys[i..][0] == keys[i] && keys[i..][1..] == keys[i + 1..];
    }
  }

  /** hashRecord: the fields one to a line, then the metadata. */
  method HashRecord(h: Hash, r: Record) returns (hash: string)
    ensures hash == Digest(h)(r)
  {
    var text := Lines(Header(r), "");
    var meta := MetaLines(r.metadata);
    LinesThen(Header(r), "", meta);
    assert "" + meta == meta;
    assert text + meta == HashText(r);
    return h(text + meta);
  }

  lemma {:induction false} LinesThen(f: seq<string>, u: string, v: string)
    ensures Lines(f, u) + v == Lines(f, u + v)
  {
    if f != [] { LinesThen(f[1..], u, v); }
  }

  lemma {:induction false} LinesConcat(f: seq<string>, g: seq<string>, u: string)
    ensures Lines(f + g, u) == Lines(f, Lines(g, u))
  {
    if f == [] {
      assert f + g == g;
    } else {
      assert (f + g)[1..] == f[1..] + g;
      LinesConcat(f[1..], g, u);
    }
  }

  // ----- The text tells well-formed records apart -----

  predicate NoNewline(s: string) { '\n' !in s }

  ghost predicate WellFormedMeta(m: Metadata) { forall k | k in m :: NoNewline(k) && '=' !in k && NoNewline(m[k]) }

  ghost predicate WellFormed(r: Record) {
    && NoNewline(r.prevHash) && NoNewline(r.org) && NoNewline(r.actor) && NoNewline(r.action) && NoNewline(r.target)
    && WellFormedMeta(r.metadata)
  }

  lemma {:induction false} LinesInjective(f: seq<string>, u: string, g: seq<string>, v: string)
    requires |f| == |g| && Lines(f, u) == Lines(g, v)
    requires forall i | 0 <= i < |f| :: NoNewline(f[i]) && NoNewline(g[i])
    ensures f == g && u == v
  {
    if f != [] {
      CutUnique('\n', f[0], Lines(f[1..], u), g[0], Lines(g[1..], v));
      LinesInjective(f[1..], u, g[1..], v);
      assert f == [f[0]] + f[1..] && g == [g[0]] + g[1..];
    }
  }

  lemma {:induction false} MetaInjective(m: Metadata, ks: seq<string>, n: Metadata, ls: seq<string>)
    requires forall k | k in ks :: k in m && NoNewline(k) && '=' !in k && NoNewline(m[k])
    requires forall k | k in ls :: k in n && NoNewline(k) && '=' !in k && NoNewline(n[k])
    requires MetaText(m, ks) == MetaText(n, ls)
    ensures ks == ls && forall k | k in ks :: m[k] == n[k]
  {
    if ks != [] && ls != [] {
      var k, l := ks[0], ls[0];
      assert k in ks && l in ls;
      CutUnique('\n', k + ['='] + m[k], MetaText(m, ks[1..]), l + ['='] + n[l], MetaText(n, ls[1..]));
      CutUnique('=', k, m[k], l, n[l]);
      MetaInjective(m, ks[1..], n, ls[1..]);
      assert ks == [k] + ks[1..] && ls == [l] + ls[1..];
    }
  }

  lemma MetaPartInjective(m: Metadata, n: Metadata)
    requires WellFormedMeta(m) && WellFormedMeta(n) && MetaPart(m) == MetaPart(n)
    ensures m == n
  {
    KeysListed(m);
    KeysListed(n);
    ListedInjective(m, SortedKeys(m.Keys), n, SortedKeys(n.Keys));
  }

  lemma ListedInjective(m: Metadata, ks: seq<string>, n: Metadata, ls: seq<string>)
    requires WellFormedMeta(m) && WellFormedMeta(n)
    requires (forall k :: k in ks <==> k in m) && (forall k :: k in ls <==> k in n)
    requires MetaText(m, ks) == MetaText(n, ls)
    ensures m == n
  {
    MetaInjective(m, ks, n, ls);
    assert forall k :: k in m <==> k in n;
  }

  lemma KeysListed(m: Metadata)
    ensures forall k :: k in SortedKeys(m.Keys) <==> k in m
    ensures MetaPart(m) == MetaText(m, SortedKeys(m.Keys))
  {
    SortedKeysUnique(AnyOrder(m.Keys), m.Keys);
  }

  // ----- The lines of a text -----

  /** Line n of s, counting from 0, when it is ended by a newline. */
  function LineAt(s: string, n: nat): Option<string> {
    if s == "" then None
    else if s[0] == '\n' then (if n == 0 then Some("") else LineAt(s[1..], n - 1))
    else
      match LineAt(s[1..], n)
      case None => None
      case Some(t) => Some(if n == 0 then [s[0]] + t else t)
  }

  /** How often c occurs in s. */
  function Tally(c: char, s: string): nat { if s == "" then 0 else (if s[0] == c then 1 else 0) + Tally(c, s[1..]) }

  lemma {:induction false} TallyZero(c: char, s: string)
    ensures Tally(c, s) == 0 <==> c !in s
  {
    if s != "" { TallyZero(c, s[1..]); }
  }

  lemma {:induction false} TallyConcat(c: char, a: string, b: string)
    ensures Tally(c, a + b) == Tally(c, a) + Tally(c, b)
  {
    if a == "" {
      assert a + b == b;
    } else {
      assert (a + b)[1..] == a[1..] + b;
      TallyConcat(c, a[1..], b);
    }
  }

  lemma {:induction false} FirstLine(a: string, u: string)
    requires NoNewline(a)
    ensures LineAt(a + ['\n'] + u, 0) == Some(a)
  {
    var s := a + ['\n'] + u;
    if a != "" {
      assert s[1..] == a[1..] + ['\n'] + u;
      FirstLine(a[1..], u);
      assert a == [a[0]] + a[1..];
    }
  }

  /** The lines after a, which takes up one line and one more for each newline in it. */
  lemma {:induction false} LinesAfter(a: string, u: string, n: nat)
    ensures LineAt(a + ['\n'] + u, Tally('\n', a) + 1 + n) == LineAt(u, n)
  {
    var s := a + ['\n'] + u;
    if a == "" {
      assert s[1..] == u;
    } else {
      assert s[1..] == a[1..] + ['\n'] + u;
      LinesAfter(a[1..], u, n);
    }
  }

  /** How many lines the fields take up. */
  function Depth(f: seq<string>): nat { if f == [] then 0 else Tally('\n', f[0]) + 1 + Depth(f[1..]) }

  lemma {:induction false} DepthOfPlain(f: seq<string>)
    ensures Depth(f) >= |f|
    ensures Depth(f) == |f| <==> forall i | 0 <= i < |f| :: NoNewline(f[i])
  {
    if f != [] {
      DepthOfPlain(f[1..]);
      TallyZero('\n', f[0]);
      assert f == [f[0]] + f[1..];
    }
  }

  lemma {:induction false} LinesBeyond(f: seq<string>, u: string, n: nat)
    ensures LineAt(Lines(f, u), Depth(f) + n) == LineAt(u, n)
  {
    if f != [] {
      LinesBeyond(f[1..], u, n);
      LinesAfter(f[0], Lines(f[1..], u), Depth(f[1..]) + n);
    }
  }

  /** Every line holds an equals sign. */
  ghost predicate AllEquations(v: string) { forall n: nat :: Equation(v, n) }

  predicate Equation(v: string, n: nat) { LineAt(v, n).Some? ==> '=' in LineAt(v, n).value }

  lemma {:induction false} MetaLine(m: Metadata, keys: seq<string>, n: nat)
    requires forall k | k in keys :: k in m && NoNewline(k) && NoNewline(m[k])
    ensures Equation(MetaText(m, keys), n)
  {
    if keys != [] {
      var k := keys[0];
      assert k in keys;
      var a, rest := k + ['='] + m[k], MetaText(m, keys[1..]);
      FirstLine(a, rest);
      TallyZero('\n', a);
      if n > 0 {
        LinesAfter(a, rest, n - 1);
        MetaLine(m, keys[1..], n - 1);
      }
    }
  }

  lemma MetaAllEquations(m: Metadata)
    requires WellFormedMeta(m)
    ensures AllEquations(MetaPart(m))
  {
    SortedKeysUnique(AnyOrder(m.Keys), m.Keys);
    forall n: nat ensures Equation(MetaPart(m), n) { MetaLine(m, SortedKeys(m.Keys), n); }
  }

  /** Among the lines after plain fields, all equations, t is not. */
  lemma NotBeyond(g: seq<string>, v: string, t: string, d: nat)
    requires d >= |g| && '=' !in t && AllEquations(v) && forall i | 0 <= i < |g| :: NoNewline(g[i])
    ensures LineAt(Lines(g, v), d) != Some(t)
  {
    DepthOfPlain(g);
    LinesBeyond(g, v, d - |g|);
    assert Equation(v, d - |g|);
  }

  /** The line after those of f is t. */
  lemma LineAfter(f: seq<string>, t: string, u: string)
    requires NoNewline(t)
    ensures LineAt(Lines(f + [t], u), Depth(f)) == Some(t)
  {
    LinesConcat(f, [t], u);
    LinesBeyond(f, Lines([t], u), 0);
    FirstLine(t, u);
  }

  /** A newline in a field of f would push t down among the equations of v, and t is none. */
  lemma HeaderFits(f: seq<string>, t: string, u: string, g: seq<string>, w: string, v: string)
    requires |f| == |g| && Lines(f + [t], u) == Lines(g + [w], v)
    requires NoNewline(t) && '=' !in t && NoNewline(w) && AllEquations(v)
    requires forall i | 0 <= i < |g| :: NoNewline(g[i])
    ensures f == g && t == w && u == v
  {
    LineAfter(f, t, u);
    DepthOfPlain(f);
    if Depth(f) > |g| { NotBeyond(g + [w], v, t, Depth(f)); }
    LinesInjective(f + [t], u, g + [w], v);
    assert f == (f + [t])[..|f|] && g == (g + [w])[..|g|] && t == (f + [t])[|f|] && w == (g + [w])[|g|];
  }

  // ----- What the text tells of a record -----

  /** s is r but for the hash and for how the same metadata text is cut into keys and values. */
  ghost predicate Recut(r: Record, s: Record) {
    s == r.(metadata := s.metadata, hash := s.hash) && MetaPart(s.metadata) == MetaPart(r.metadata)
  }

  function HeaderStrings(r: Record): seq<string> { [Decimal(r.seqNo), r.prevHash, r.org, r.actor, r.action, r.target] }

  /** Whatever hashes the text of a well-formed record agrees with it in every field but the hash, save
      for how the metadata lines are cut; the fields of s may hold anything. */
  lemma SameTextIffRecut(r: Record, s: Record)
    requires WellFormed(r)
    ensures HashText(r) == HashText(s) <==> Recut(r, s)
  {
    var f, g := HeaderStrings(s), HeaderStrings(r);
    assert Header(s) == f + [Decimal(s.time)] && Header(r) == g + [Decimal(r.time)];
    if HashText(r) == HashText(s) {
      DecimalsNoNewline(r);
      DecimalsNoNewline(s);
      DecimalLacks(s.time, '=');
      MetaAllEquations(r.metadata);
      HeaderFits(f, Decimal(s.time), MetaPart(s.metadata), g, Decimal(r.time), MetaPart(r.metadata));
      assert f[0] == g[0] && f[1] == g[1] && f[2] == g[2] && f[3] == g[3] && f[4] == g[4] && f[5] == g[5];
      DecimalInjective(r.seqNo, s.seqNo);
      DecimalInjective(r.time, s.time);
    }
  }

  /** Records that hash the same text are the same in every field but the hash. */
  lemma HashTextInjective(r: Record, s: Record)
    requires WellFormed(r) && WellFormed(s) && HashText(r) == HashText(s)
    ensures r == s.(hash := r.hash)
  {
    SameTextIffRecut(r, s);
    MetaPartInjective(r.metadata, s.metadata);
  }

  lemma DecimalsNoNewline(r: Record)
    ensures NoNewline(Decimal(r.seqNo)) && NoNewline(Decimal(r.time))
  {
    DecimalLacks(r.seqNo, '\n');
    DecimalLacks(r.time, '\n');
  }

  /** The position alone is told apart whatever the other fields hold. */
  lemma SeqNoFromText(r: Record, s: Record)
    requires HashText(r) == HashText(s)
    ensures r.seqNo == s.seqNo
  {
    DecimalsNoNewline(r);
    DecimalsNoNewline(s);
    CutUnique('\n', Decimal(r.seqNo), Lines(Header(r)[1..], MetaPart(r.metadata)),
              Decimal(s.seqNo), Lines(Header(s)[1..], MetaPart(s.metadata)));
    DecimalInjective(r.seqNo, s.seqNo);
  }

  /** The strings of the header, and the record with these in their place. */
  function Strings(r: Record): seq<string> { [r.prevHash, r.org, r.actor, r.action, r.target] }

  function WithStrings(r: Record, fs: seq<string>): Record
    requires |fs| == 5
  {
    r.(prevHash := fs[0], org := fs[1], actor := fs[2], action := fs[3], target := fs[4])
  }

  lemma LineMoved(p: seq<string>, x: string, y: string, z: string, q: seq<string>, u: string)
    ensures Lines(p + [x + ['\n'] + y, z] + q, u) == Lines(p + [x, y + ['\n'] + z] + q, u)
  {
    var a, b := [x + ['\n'] + y, z], [x, y + ['\n'] + z];
    var rest := Lines(q, u);
    TwoLines(a[0], a[1], rest);
    TwoLines(b[0], b[1], rest);
    assert a[0] + ['\n'] + a[1] == b[0] + ['\n'] + b[1];
    assert p + a + q == p + (a + q) && p + b + q == p + (b + q);
    LinesConcat(p, a + q, u);
    LinesConcat(p, b + q, u);
    LinesConcat(a, q, u);
    LinesConcat(b, q, u);
  }

  lemma HeaderOf(r: Record, fs: seq<string>)
    requires |fs| == 5
    ensures Header(WithStrings(r, fs)) == [Decimal(r.seqNo)] + fs + [Decimal(r.time)] &&
            Strings(WithStrings(r, fs)) == fs
  {
  }

  lemma Neighbours(first: string, fs: seq<string>, last: string, j: nat, v: string, w: string)
    requires j + 1 < |fs|
    ensures [first] + fs[j := v][j + 1 := w] + [last] == ([first] + fs[..j]) + [v, w] + (fs[j + 2..] + [last])
  {
  }

  /** A newline inside a string of the header defeats it: what follows can be moved to the next string,
      whichever two neighbours they are. */
  lemma NewlineCollides(r: Record, j: nat, x: string, y: string, z: string)
    requires j < 4
    ensures var a := WithStrings(r, Strings(r)[j := x + ['\n'] + y][j + 1 := z]);
            var b := WithStrings(r, Strings(r)[j := x][j + 1 := y + ['\n'] + z]);
            a != b && HashText(a) == HashText(b)
  {
    var fs, x2, z2 := Strings(r), x + ['\n'] + y, y + ['\n'] + z;
    var first, last := Decimal(r.seqNo), Decimal(r.time);
    HeaderOf(r, fs[j := x2][j + 1 := z]);
    HeaderOf(r, fs[j := x][j + 1 := z2]);
    Neighbours(first, fs, last, j, x2, z);
    Neighbours(first, fs, last, j, x, z2);
    LineMoved([first] + fs[..j], x, y, z, fs[j + 2..] + [last], MetaPart(r.metadata));
    assert fs[j := x2][j + 1 := z][j] == x2 && fs[j := x][j + 1 := z2][j] == x && |x2| > |x|;
  }

  lemma TwoLines(p: string, q: string, u: string)
    ensures Lines([p, q], u) == (p + ['\n'] + q) + ['\n'] + u
  {
    assert [p, q][1..] == [q] && [q][1..] == [];
    assert Lines([q], u) == q + ['\n'] + u;
  }

  // ----- When metadata can be cut another way -----

  lemma SortedKeysAre(xs: seq<string>, keys: set<string>)
    requires Sorted(xs, Less) && forall k :: k in xs <==> k in keys
    ensures SortedKeys(keys) == xs
  {
    SortedKeysUnique(AnyOrder(keys), keys);
    LessIsStrictOrder();
    SortedUnique(SortedKeys(keys), xs, Less);
  }

  lemma {:induction false} MetaTextFrame(m: Metadata, n: Metadata, keys: seq<string>)
    requires forall k | k in keys :: k in m && k in n && m[k] == n[k]
    ensures MetaText(m, keys) == MetaText(n, keys)
  {
    if keys != [] {
      assert keys[0] in keys;
      MetaTextFrame(m, n, keys[1..]);
    }
  }

  lemma EntryCount(m: Metadata)
    ensures |SortedKeys(m.Keys)| == |m|
    ensures forall k :: k in SortedKeys(m.Keys) <==> k in m
    ensures Sorted(SortedKeys(m.Keys), Less)
  {
    SortedKeysUnique(AnyOrder(m.Keys), m.Keys);
    LessIsStrictOrder();
    var ks := SortedKeys(m.Keys);
    assert forall i, j | 0 <= i < j < |ks| :: ks[i] != ks[j] by {
      assert forall i, j | 0 <= i < j < |ks| :: Less(ks[i], ks[j]);
    }
    DistinctCount(ks, m.Keys);
  }

  lemma {:induction false} DistinctCount(xs: seq<string>, keys: set<string>)
    requires (forall i, j | 0 <= i < j < |xs| :: xs[i] != xs[j]) && forall k :: k in xs <==> k in keys
    ensures |xs| == |keys|
  {
    if xs == [] {
      assert keys == {};
    } else {
      var n := |xs| - 1;
      assert xs == xs[..n] + [xs[n]];
      DistinctCount(xs[..n], keys - {xs[n]});
    }
  }

  lemma DropSecond(ks: seq<string>)
    requires Sorted(ks, Less) && |ks| >= 2
    ensures Sorted([ks[0]] + ks[2..], Less) && ks[0] != ks[1]
    ensures forall x :: x in [ks[0]] + ks[2..] <==> x in ks && x != ks[1]
    ensures ks[0] !in ks[2..]
  {
    LessIsStrictOrder();
    var xs := [ks[0]] + ks[2..];
    assert Less(ks[0], ks[1]);
    forall i, j | 0 <= i < j < |xs|
      ensures Less(xs[i], xs[j])
    {
      assert Less(if i == 0 then ks[0] else ks[i + 1], ks[j + 1]);
    }
    forall i | 2 <= i < |ks|
      ensures ks[i] != ks[0] && ks[i] != ks[1]
    {
      assert Less(ks[0], ks[i]) && Less(ks[1], ks[i]);
    }
    assert ks == [ks[0], ks[1]] + ks[2..];
  }

  lemma SwallowText(m: Metadata, n: Metadata, k: string, l: string, rest: seq<string>)
    requires k in m && l in m && k in n && n[k] == m[k] + ['\n'] + l + ['='] + m[l]
    requires forall x | x in rest :: x in m && x in n && m[x] == n[x]
    ensures MetaText(n, [k] + rest) == MetaText(m, [k] + ([l] + rest))
  {
    MetaTextFrame(m, n, rest);
    var tail := MetaText(m, rest);
    assert ([k] + rest)[1..] == rest && ([k] + ([l] + rest))[1..] == [l] + rest && ([l] + rest)[1..] == rest;
    assert k + ['='] + n[k] + ['\n'] + tail == k + ['='] + m[k] + ['\n'] + (l + ['='] + m[l] + ['\n'] + tail);
  }

  /** The second entry can be swallowed by the value of the first. */
  lemma SwallowSecond(m: Metadata) returns (n: Metadata)
    requires |m| >= 2
    ensures n != m && MetaPart(n) == MetaPart(m)
  {
    EntryCount(m);
    var ks := SortedKeys(m.Keys);
    DropSecond(ks);
    var k, l, rest := ks[0], ks[1], ks[2..];
    assert ks == [k] + ([l] + rest);
    n := (m - {l})[k := m[k] + ['\n'] + l + ['='] + m[l]];
    assert n.Keys == m.Keys - {l};
    SortedKeysAre([k] + rest, n.Keys);
    SwallowText(m, n, k, l, rest);
    assert l !in n;
  }

  lemma SingleText(m: Metadata, k: string)
    requires m.Keys == {k}
    ensures MetaPart(m) == k + ['='] + m[k] + ['\n']
  {
    SortedKeysAre([k], m.Keys);
    var entry := k + ['='] + m[k] + ['\n'];
    assert MetaText(m, [k]) == entry + MetaText(m, [k][1..]);
    assert [k][1..] == [];
    assert entry + "" == entry;
  }

  /** An equals sign in the one value there is can be taken for the separator. */
  lemma MoveEquals(m: Metadata, k: string, a: string, b: string) returns (n: Metadata)
    requires m.Keys == {k} && m[k] == a + ['='] + b
    ensures n != m && MetaPart(n) == MetaPart(m) && n == map[k + ['='] + a := b]
  {
    var l := k + ['='] + a;
    n := map[l := b];
    SingleText(m, k);
    SingleText(n, l);
    assert k + ['='] + (a + ['='] + b) + ['\n'] == l + ['='] + b + ['\n'];
    assert |k| != |l| && l in n.Keys;
  }

  /** So can one in the one key there is. */
  lemma MoveKeyEquals(m: Metadata, k: string) returns (n: Metadata)
    requires m.Keys == {k} && '=' in k
    ensures n != m && MetaPart(n) == MetaPart(m)
  {
    var i :| 0 <= i < |k| && k[i] == '=';
    n := map[k[..i] := k[i + 1..] + ['='] + m[k]];
    var m2 := MoveEquals(n, k[..i], k[i + 1..], m[k]);
    assert k == k[..i] + ['='] + k[i + 1..];
    assert m2.Keys == m.Keys && m2 == m;
  }

  /** A character that occurs in the text no more often than there are entries is in no key or value. */
  lemma {:induction false} TallyMeta(c: char, m: Metadata, keys: seq<string>)
    requires (c == '=' || c == '\n') && forall k | k in keys :: k in m
    ensures Tally(c, MetaText(m, keys)) >= |keys|
    ensures Tally(c, MetaText(m, keys)) == |keys| ==> forall k | k in keys :: c !in k && c !in m[k]
  {
    if keys != [] {
      var k, rest := keys[0], keys[1..];
      assert k in keys && keys == [k] + rest;
      TallyMeta(c, m, rest);
      TallyConcat(c, k + ['='] + m[k] + ['\n'], MetaText(m, rest));
      TallyEntry(c, k, m[k]);
      TallyZero(c, k);
      TallyZero(c, m[k]);
    }
  }

  lemma TallyEntry(c: char, k: string, v: string)
    requires c == '=' || c == '\n'
    ensures Tally(c, k + ['='] + v + ['\n']) == Tally(c, k) + Tally(c, v) + 1
  {
    TallyConcat(c, k + ['='] + v, ['\n']);
    TallyConcat(c, k + ['='], v);
    TallyConcat(c, k, ['=']);
  }

  lemma TallySingle(m: Metadata, c: char)
    requires WellFormedMeta(m) && |m| <= 1 && (forall k | k in m :: '=' !in m[k]) && (c == '=' || c == '\n')
    ensures Tally(c, MetaPart(m)) == |m|
  {
    if m == map[] {
      SortedKeysAre([], m.Keys);
    } else {
      var k :| k in m;
      OnlyKey(m, k);
      SingleText(m, k);
      TallyEntry(c, k, m[k]);
      TallyZero(c, k);
      TallyZero(c, m[k]);
    }
  }

  lemma OnlyKey(m: Metadata, k: string)
    requires |m| <= 1 && k in m
    ensures m.Keys == {k}
  {
    assert |m.Keys - {k}| == |m| - 1;
    assert m.Keys == {k} + (m.Keys - {k});
  }

  /** Text with no more newlines and equals signs than entries is that of well-formed metadata. */
  lemma TalliedWellFormed(n: Metadata, count: nat)
    requires Tally('=', MetaPart(n)) == count && Tally('\n', MetaPart(n)) == count && count <= |n|
    ensures WellFormedMeta(n)
  {
    EntryCount(n);
    TallyMeta('=', n, SortedKeys(n.Keys));
    TallyMeta('\n', n, SortedKeys(n.Keys));
  }

  lemma SingleEntryUnique(m: Metadata, n: Metadata)
    requires WellFormedMeta(m) && |m| <= 1 && (forall k | k in m :: '=' !in m[k]) && MetaPart(n) == MetaPart(m)
    ensures n == m
  {
    TallySingle(m, '=');
    TallySingle(m, '\n');
    if n == map[] { SortedKeysAre([], n.Keys); }
    assert |m| > 0 ==> n != map[];
    assert |m| <= |n|;
    TalliedWellFormed(n, |m|);
    MetaPartInjective(m, n);
  }

  /** Other metadata have the same text exactly when there are two entries or a value holds an equals
      sign. */
  lemma AmbiguousIff(m: Metadata)
    requires WellFormedMeta(m)
    ensures (exists n: Metadata :: n != m && MetaPart(n) == MetaPart(m)) <==>
            |m| >= 2 || exists k :: k in m && '=' in m[k]
  {
    if |m| >= 2 {
      var n := SwallowSecond(m);
    } else if k :| k in m && '=' in m[k] {
      var i :| 0 <= i < |m[k]| && m[k][i] == '=';
      assert m[k] == m[k][..i] + ['='] + m[k][i + 1..];
      OnlyKey(m, k);
      var n := MoveEquals(m, k, m[k][..i], m[k][i + 1..]);
    } else {
      forall n: Metadata | MetaPart(n) == MetaPart(m) ensures n == m { SingleEntryUnique(m, n); }
    }
  }

  // ----- The chain -----

  function Tip(log: seq<Record>): string { if log == [] then "" else log[|log| - 1].hash }

  /** A record of e at the given place in the chain, sealed with its digest. */
  ghost function Seal(digest: Record -> string, seqNo: int, prevHash: string, e: Event, now: int): Record {
    var r := Unsealed(seqNo, prevHash, e, now);
    r.(hash := digest(r))
  }

  function Unsealed(seqNo: int, prevHash: string, e: Event, now: int): Record {
    Record(seqNo, prevHash, e.org, e.actor, e.action, e.target, if e.time.Some? then e.time.value else now, e.metadata,
           "")
  }

  ghost function Appended(digest: Record -> string, log: seq<Record>, e: Event, now: int): seq<Record> {
    log + [Seal(digest, |log| + 1, Tip(log), e, now)]
  }

  ghost predicate Chained(digest: Record -> string, log: seq<Record>) {
    forall i | 0 <= i < |log| :: Follows(digest, log, i)
  }

  /** Record i is sealed and links to the one before it. */
  ghost predicate Follows(digest: Record -> string, log: seq<Record>, i: nat)
    requires i < |log|
  {
    log[i].prevHash == HashBefore(log, i) && log[i].hash == digest(log[i])
  }

  function HashBefore(log: seq<Record>, i: nat): string
    requires i <= |log|
  {
    if i == 0 then "" else log[i - 1].hash
  }

  predicate Numbered(log: seq<Record>) { forall i | 0 <= i < |log| :: log[i].seqNo == i + 1 }

  /** What the chain needs of a digest: it is never empty, ignores the hash field itself, gives away the
      place, and of a well-formed record is shared just by those it is recut into. */
  ghost predicate Sound(digest: Record -> string) {
    && (forall r :: digest(r) != "")
    && (forall r: Record, x :: digest(r.(hash := x)) == digest(r))
    && (forall r: Record, s: Record :: digest(r) == digest(s) ==> r.seqNo == s.seqNo)
    && (forall r: Record, s: Record {:trigger Recut(r, s)} ::
        WellFormed(r) ==> (digest(r) == digest(s) <==> Recut(r, s)))
  }

  lemma DigestIgnoresHash(h: Hash)
    ensures forall r: Record, x :: Digest(h)(r.(hash := x)) == Digest(h)(r)
  {
    forall r: Record, x ensures Digest(h)(r.(hash := x)) == Digest(h)(r) {
      assert Header(r.(hash := x)) == Header(r);
      assert HashText(r.(hash := x)) == HashText(r);
    }
  }

  lemma DigestIsSound(h: Hash)
    requires IdealHash(h)
    ensures Sound(Digest(h))
  {
    var d := Digest(h);
    forall r ensures d(r) != "" { assert d(r) == h(HashText(r)); }
    DigestIgnoresHash(h);
    forall r, s | d(r) == d(s) ensures r.seqNo == s.seqNo { SeqNoFromText(r, s); }
    forall r, s | WellFormed(r) ensures d(r) == d(s) <==> Recut(r, s) { SameTextIffRecut(r, s); }
  }

  /** Recording keeps the log verifiable and its records numbered from one. */
  lemma AppendKeepsChain(digest: Record -> string, log: seq<Record>, e: Event, now: int)
    requires forall r: Record, x :: digest(r.(hash := x)) == digest(r)
    requires Chained(digest, log) && Numbered(log)
    ensures Chained(digest, Appended(digest, log, e, now)) && Numbered(Appended(digest, log, e, now))
  {
    var log2 := Appended(digest, log, e, now);
    forall i | 0 <= i < |log2| ensures Follows(digest, log2, i) {
      assert i < |log| ==> Follows(digest, log, i);
    }
  }

  /** The log that recording these events, each with the clock's reading, builds. */
  ghost function Recorded(digest: Record -> string, events: seq<(Event, int)>): seq<Record> {
    if events == [] then []
    else
      var n := |events| - 1;
      Appended(digest, Recorded(digest, events[..n]), events[n].0, events[n].1)
  }

  /** Record i is of event i: what the event says, its own time or else the clock's, and the link to the
      record before. */
  ghost predicate RecordsEvent(log: seq<Record>, i: nat, e: Event, now: int)
    requires i < |log|
  {
    var r := log[i];
    && r.seqNo == i + 1 && r.org == e.org && r.actor == e.actor && r.action == e.action && r.target == e.target
    && r.metadata == e.metadata && r.time == (match e.time case Some(t) => t case None => now)
    && r.prevHash == (if i == 0 then "" else log[i - 1].hash)
  }

  /** Recording events keeps each as it was, in order, and nothing else. */
  lemma {:induction false} RecordedIsWhatHappened(digest: Record -> string, events: seq<(Event, int)>)
    ensures |Recorded(digest, events)| == |events|
    ensures forall i | 0 <= i < |events| ::
              RecordsEvent(Recorded(digest, events), i, events[i].0, events[i].1)
  {
    if events != [] {
      var n, log := |events| - 1, Recorded(digest, events);
      var p := Recorded(digest, events[..n]);
      RecordedIsWhatHappened(digest, events[..n]);
      forall i | 0 <= i < |events| ensures RecordsEvent(log, i, events[i].0, events[i].1) {
        if i < n { assert RecordsEvent(p, i, events[..n][i].0, events[..n][i].1); }
      }
    }
  }

  lemma {:induction false} RecordedVerifies(h: Hash, events: seq<(Event, int)>)
    ensures Chained(Digest(h), Recorded(Digest(h), events)) && Numbered(Recorded(Digest(h), events))
    ensures |Recorded(Digest(h), events)| == |events|
  {
    if events != [] {
      var n := |events| - 1;
      RecordedVerifies(h, events[..n]);
      DigestIgnoresHash(h);
      AppendKeepsChain(Digest(h), Recorded(Digest(h), events[..n]), events[n].0, events[n].1);
    }
  }

  // ----- Tamper evidence -----

  lemma ChainedPrefix(digest: Record -> string, log: seq<Record>, n: nat)
    requires Chained(digest, log) && n <= |log|
    ensures Chained(digest, log[..n])
  {
    forall i | 0 <= i < n ensures Follows(digest, log[..n], i) { assert Follows(digest, log, i); }
  }

  /** In a log, what follows a given hash has one place. */
  lemma PlaceFromHash(digest: Record -> string, log: seq<Record>, i: nat, j: nat)
    requires Sound(digest) && Chained(digest, log) && Numbered(log)
    requires i <= |log| && j <= |log| && HashBefore(log, i) == HashBefore(log, j)
    ensures i == j
  {
    assert i > 0 ==> Follows(digest, log, i - 1);
    assert j > 0 ==> Follows(digest, log, j - 1);
  }

  /** Records drawn from a recorded log in any order, with any left out or repeated, verify only if
      they are its first ones in order. */
  lemma {:induction false} DrawnIsPrefix(digest: Record -> string, log: seq<Record>, drawn: seq<Record>)
    requires Sound(digest) && Chained(digest, log) && Numbered(log)
    requires (forall r | r in drawn :: r in log) && Chained(digest, drawn)
    ensures drawn <= log
  {
    if drawn != [] {
      var n := |drawn| - 1;
      ChainedPrefix(digest, drawn, n);
      DrawnIsPrefix(digest, log, drawn[..n]);
      assert drawn[n] in drawn;
      var j :| 0 <= j < |log| && log[j] == drawn[n];
      assert Follows(digest, drawn, n) && Follows(digest, log, j);
      assert HashBefore(drawn, n) == HashBefore(log, n) by {
        if n > 0 { assert drawn[n - 1] == drawn[..n][n - 1] == log[n - 1]; }
      }
      PlaceFromHash(digest, log, n, j);
      assert drawn == drawn[..n] + [log[n]];
    }
  }

  /** Both are sealed under one hash, and the first is well formed: the other is it, recut. */
  lemma SameHashRecut(digest: Record -> string, r: Record, s: Record)
    requires Sound(digest) && WellFormed(r)
    requires r.hash == s.hash && r.hash == digest(r) && s.hash == digest(s)
    ensures Recut(r, s)
  {
    assert Recut(r, s) <==> digest(r) == digest(s);
  }

  lemma RecutKeepsDigest(digest: Record -> string, r: Record, s: Record)
    requires Sound(digest) && WellFormed(r) && Recut(r, s)
    ensures digest(s) == digest(r) && s.prevHash == r.prevHash
  {
  }

  /** Editing a record in place and keeping its hash, whatever is written into it, goes unnoticed exactly
      when only the metadata changed and its lines are the same text. */
  lemma EditUnnoticedIff(digest: Record -> string, log: seq<Record>, i: nat, edited: Record)
    requires Sound(digest) && Chained(digest, log) && i < |log|
    requires WellFormed(log[i]) && edited.hash == log[i].hash
    ensures Chained(digest, log[i := edited]) <==>
            edited == log[i].(metadata := edited.metadata) &&
            MetaPart(edited.metadata) == MetaPart(log[i].metadata)
  {
    var log2 := log[i := edited];
    assert Follows(digest, log, i);
    if Chained(digest, log2) {
      assert Follows(digest, log2, i);
      SameHashRecut(digest, log[i], edited);
    }
    if Recut(log[i], edited) {
      RecutKeepsDigest(digest, log[i], edited);
      forall j | 0 <= j < |log2| ensures Follows(digest, log2, j) { assert Follows(digest, log, j); }
    }
  }

  /** So every edit of a field other than the metadata is caught. */
  lemma EditBreaksChain(digest: Record -> string, log: seq<Record>, i: nat, edited: Record)
    requires Sound(digest) && Chained(digest, log) && i < |log|
    requires WellFormed(log[i]) && edited.hash == log[i].hash && edited.(metadata := log[i].metadata) != log[i]
    ensures !Chained(digest, log[i := edited])
  {
    EditUnnoticedIff(digest, log, i, edited);
  }

  /** Another record with the same hash can take the place of record i. */
  ghost predicate Editable(digest: Record -> string, log: seq<Record>, i: nat)
    requires i < |log|
  {
    exists edited: Record ::
      edited != log[i] && edited.hash == log[i].hash && Chained(digest, log[i := edited])
  }

  /** A well-formed record can be edited unnoticed exactly when it has two metadata entries or an equals
      sign in the value of one. */
  lemma EditableIff(digest: Record -> string, log: seq<Record>, i: nat)
    requires Sound(digest) && Chained(digest, log) && i < |log| && WellFormed(log[i])
    ensures Editable(digest, log, i) <==>
            |log[i].metadata| >= 2 || exists k :: k in log[i].metadata && '=' in log[i].metadata[k]
  {
    AmbiguousIff(log[i].metadata);
    if n: Metadata :| n != log[i].metadata && MetaPart(n) == MetaPart(log[i].metadata) {
      var edited := log[i].(metadata := n);
      EditUnnoticedIff(digest, log, i, edited);
      assert edited != log[i];
    }
    if edited: Record :| edited != log[i] && edited.hash == log[i].hash && Chained(digest, log[i := edited]) {
      EditUnnoticedIff(digest, log, i, edited);
      assert edited.metadata != log[i].metadata;
    }
  }

  /** A newline in one of the strings an event fills in. */
  predicate BrokenHeader(r: Record) { '\n' in r.org || '\n' in r.actor || '\n' in r.action || '\n' in r.target }

  /** What may be taken for another cut of the metadata. */
  ghost predicate AmbiguousMeta(m: Metadata) { |m| >= 2 || exists k :: k in m && ('=' in k || '=' in m[k]) }

  ghost predicate OneLineMeta(m: Metadata) { forall k | k in m :: NoNewline(k) && NoNewline(m[k]) }

  /** What follows a newline in a string can be moved to the next string. */
  lemma ShiftDown(r: Record, j: nat) returns (s: Record)
    requires j < 4 && '\n' in Strings(r)[j]
    ensures s != r && s.hash == r.hash && HashText(s) == HashText(r)
    ensures j > 0 ==> s.prevHash == r.prevHash
  {
    var fs := Strings(r);
    var i :| 0 <= i < |fs[j]| && fs[j][i] == '\n';
    var x, y := fs[j][..i], fs[j][i + 1..];
    assert fs[j] == x + ['\n'] + y;
    NewlineCollides(r, j, x, y, fs[j + 1]);
    assert fs[j := fs[j]][j + 1 := fs[j + 1]] == fs;
    s := WithStrings(r, fs[j := x][j + 1 := y + ['\n'] + fs[j + 1]]);
  }

  /** What precedes one can be moved to the string before. */
  lemma ShiftUp(r: Record) returns (s: Record)
    requires '\n' in r.target
    ensures s != r && s.hash == r.hash && s.prevHash == r.prevHash && HashText(s) == HashText(r)
  {
    var fs := Strings(r);
    var i :| 0 <= i < |r.target| && r.target[i] == '\n';
    var x, y := r.target[..i], r.target[i + 1..];
    assert r.target == x + ['\n'] + y;
    NewlineCollides(r, 3, r.action, x, y);
    assert fs[3 := fs[3]][4 := fs[4]] == fs;
    s := WithStrings(r, fs[3 := r.action + ['\n'] + x][4 := y]);
  }

  lemma ShiftLine(r: Record) returns (s: Record)
    requires BrokenHeader(r)
    ensures s != r && s.hash == r.hash && s.prevHash == r.prevHash && HashText(s) == HashText(r)
  {
    if '\n' in r.target {
      s := ShiftUp(r);
    } else {
      s := ShiftDown(r, if '\n' in r.org then 1 else if '\n' in r.actor then 2 else 3);
    }
  }

  lemma CutAgain(m: Metadata) returns (n: Metadata)
    requires AmbiguousMeta(m)
    ensures n != m && MetaPart(n) == MetaPart(m)
  {
    if |m| >= 2 {
      n := SwallowSecond(m);
    } else {
      var k :| k in m && ('=' in k || '=' in m[k]);
      OnlyKey(m, k);
      if '=' in k {
        n := MoveKeyEquals(m, k);
      } else {
        var i :| 0 <= i < |m[k]| && m[k][i] == '=';
        assert m[k] == m[k][..i] + ['='] + m[k][i + 1..];
        n := MoveEquals(m, k, m[k][..i], m[k][i + 1..]);
      }
    }
  }

  lemma FollowsEdited(digest: Record -> string, log: seq<Record>, i: nat, s: Record, j: nat)
    requires i < |log| && j < |log| && Follows(digest, log, j)
    requires s.hash == log[i].hash && s.prevHash == log[i].prevHash && digest(s) == digest(log[i])
    ensures Follows(digest, log[i := s], j)
  {
    assert HashBefore(log[i := s], j) == HashBefore(log, j);
  }

  lemma SameTextEditable(h: Hash, log: seq<Record>, i: nat, s: Record)
    requires Chained(Digest(h), log) && i < |log| && s != log[i] && s.hash == log[i].hash
    requires s.prevHash == log[i].prevHash && HashText(s) == HashText(log[i])
    ensures Editable(Digest(h), log, i)
  {
    var d, log2 := Digest(h), log[i := s];
    forall j | 0 <= j < |log2| ensures Follows(d, log2, j) {
      assert Follows(d, log, j);
      FollowsEdited(d, log, i, s, j);
    }
  }

  lemma PrevHashClean(h: Hash, log: seq<Record>, i: nat)
    requires IdealHash(h) && Chained(Digest(h), log) && i < |log|
    ensures NoNewline(log[i].prevHash)
  {
    assert Follows(Digest(h), log, i);
    if i > 0 {
      assert Follows(Digest(h), log, i - 1);
      assert log[i - 1].hash == h(HashText(log[i - 1]));
    }
  }

  /** A record, whatever it holds, can be edited unnoticed when one of its strings has a newline, or it has
      two metadata entries, or an equals sign in one; with metadata free of newlines just then. */
  lemma AnyEditableIff(h: Hash, log: seq<Record>, i: nat)
    requires IdealHash(h) && Chained(Digest(h), log) && i < |log|
    ensures BrokenHeader(log[i]) || AmbiguousMeta(log[i].metadata) ==> Editable(Digest(h), log, i)
    ensures OneLineMeta(log[i].metadata) ==>
              (Editable(Digest(h), log, i) <==> BrokenHeader(log[i]) || AmbiguousMeta(log[i].metadata))
  {
    var r := log[i];
    if BrokenHeader(r) {
      var s := ShiftLine(r);
      SameTextEditable(h, log, i, s);
    } else if AmbiguousMeta(r.metadata) {
      var n := CutAgain(r.metadata);
      SameTextEditable(h, log, i, r.(metadata := n));
    } else if OneLineMeta(r.metadata) {
      PrevHashClean(h, log, i);
      DigestIsSound(h);
      EditableIff(Digest(h), log, i);
    }
  }

  ghost predicate AllWellFormed(log: seq<Record>) { forall i | 0 <= i < |log| :: WellFormed(log[i]) }

  lemma EmptyTip(digest: Record -> string, a: seq<Record>)
    requires Sound(digest) && Chained(digest, a)
    ensures Tip(a) == "" <==> a == []
  {
    assert a != [] ==> Follows(digest, a, |a| - 1);
  }

  /** The same records one by one, but for how metadata are cut. */
  ghost predicate RecutLog(a: seq<Record>, b: seq<Record>) {
    |a| == |b| && forall i | 0 <= i < |a| :: RecutAt(a, b, i)
  }

  ghost predicate RecutAt(a: seq<Record>, b: seq<Record>, i: nat)
    requires i < |a| == |b|
  {
    Recut(a[i], b[i]) && b[i].hash == a[i].hash
  }

  lemma SameLast(digest: Record -> string, a: seq<Record>, b: seq<Record>)
    requires Sound(digest) && Chained(digest, a) && Chained(digest, b) && a != [] && b != [] && Tip(a) == Tip(b)
    requires WellFormed(a[|a| - 1])
    ensures Recut(a[|a| - 1], b[|b| - 1]) && Tip(a[..|a| - 1]) == Tip(b[..|b| - 1])
  {
    var m, n := |a| - 1, |b| - 1;
    assert Follows(digest, a, m) && Follows(digest, b, n);
    SameHashRecut(digest, a[m], b[n]);
    assert Tip(a[..m]) == HashBefore(a, m) && Tip(b[..n]) == HashBefore(b, n);
  }

  lemma RecutSnoc(a: seq<Record>, b: seq<Record>)
    requires a != [] && b != [] && RecutLog(a[..|a| - 1], b[..|b| - 1])
    requires |a| == |b| ==> RecutAt(a, b, |a| - 1)
    ensures RecutLog(a, b)
  {
    var n := |a| - 1;
    forall i | 0 <= i < n ensures RecutAt(a, b, i) {
      assert RecutAt(a[..n], b[..n], i);
      assert a[..n][i] == a[i] && b[..n][i] == b[i];
    }
  }

  lemma {:induction false} SameTipRecut(digest: Record -> string, a: seq<Record>, b: seq<Record>)
    requires Sound(digest) && Chained(digest, a) && Chained(digest, b) && Tip(a) == Tip(b) && AllWellFormed(a)
    ensures RecutLog(a, b)
  {
    EmptyTip(digest, a);
    EmptyTip(digest, b);
    if a != [] {
      SameLast(digest, a, b);
      ChainedPrefix(digest, a, |a| - 1);
      ChainedPrefix(digest, b, |b| - 1);
      SameTipRecut(digest, a[..|a| - 1], b[..|b| - 1]);
      RecutSnoc(a, b);
    }
  }

  /** The tip commits to everything before it: what a forger makes of a well-formed log verifies with
      the same tip exactly when it is that log, metadata recut at most. */
  lemma TipCommits(digest: Record -> string, a: seq<Record>, b: seq<Record>)
    requires Sound(digest) && Chained(digest, a) && AllWellFormed(a)
    ensures Chained(digest, b) && Tip(b) == Tip(a) <==> RecutLog(a, b)
  {
    if Chained(digest, b) && Tip(b) == Tip(a) { SameTipRecut(digest, a, b); }
    if RecutLog(a, b) {
      forall i | 0 <= i < |b| ensures Follows(digest, b, i) {
        assert RecutAt(a, b, i) && Follows(digest, a, i);
        assert i > 0 ==> RecutAt(a, b, i - 1);
        RecutKeepsDigest(digest, a[i], b[i]);
      }
      assert a != [] ==> RecutAt(a, b, |a| - 1);
    }
  }

  /** The assumption on the hash can be met: the codes of the characters, in decimal. */
  lemma IdealHashExists() returns (h: Hash)
    ensures IdealHash(h)
  {
    h := Spelled;
    forall x, y | Spelled(x) == Spelled(y) ensures x == y { SpelledInjective(x, y); }
    forall x ensures Spelled(x) != "" && '\n' !in Spelled(x) && ValidText(Spelled(x)) { SpelledClean(x); }
  }

  function Spelled(s: string): string { if s == "" then "." else Digits(s[0] as int) + [';'] + Spelled(s[1..]) }

  lemma {:induction false} SpelledInjective(x: string, y: string)
    requires Spelled(x) == Spelled(y)
    ensures x == y
  {
    assert x == "" <==> Spelled(x)[0] == '.';
    assert y == "" <==> Spelled(y)[0] == '.';
    if x != "" && y != "" {
      CutUnique(';', Digits(x[0] as int), Spelled(x[1..]), Digits(y[0] as int), Spelled(y[1..]));
      ValueOfDigits(x[0] as int);
      ValueOfDigits(y[0] as int);
      SpelledInjective(x[1..], y[1..]);
      assert x == [x[0]] + x[1..] && y == [y[0]] + y[1..];
    }
  }

  predicate Plain(c: char) { IsDigit(c) || c == ';' || c == '.' }

  lemma {:induction false} SpelledClean(x: string)
    ensures Spelled(x) != "" && '\n' !in Spelled(x) && ValidText(Spelled(x))
  {
    SpelledPlain(x);
    AsciiIsValid(Spelled(x));
  }

  lemma {:induction false} SpelledPlain(x: string)
    ensures Spelled(x) != "" && forall i | 0 <= i < |Spelled(x)| :: Plain(Spelled(x)[i])
  {
    if x != "" { SpelledPlain(x[1..]); }
  }

  // ----- Reading the log back -----

  /** The org's records, newest first. */
  function NewestFirst(log: seq<Record>, org: string): seq<Record> {
    if log == [] then []
    else
      var n := |log| - 1;
      (if log[n].org == org then [log[n]] else []) + NewestFirst(log[..n], org)
  }

  function Listed(log: seq<Record>, org: string, limit: int): seq<Record> {
    var all := NewestFirst(log, org);
    if 0 < limit < |all| then all[..limit] else all
  }

  lemma NewestNext(log: seq<Record>, org: string, i: nat)
    requires i < |log|
    ensures NewestFirst(log[..i + 1], org) == (if log[i].org == org then [log[i]] else []) + NewestFirst(log[..i], org)
  {
    assert log[..i + 1][..i] == log[..i];
  }

  /** out holds the records of org at these places, newest first. */
  ghost predicate NewestOf(out: seq<Record>, log: seq<Record>, org: string, at: seq<nat>) {
    && |at| == |out| && (forall j, k | 0 <= j < k < |at| :: at[j] > at[k])
    && (forall k | 0 <= k < |at| :: at[k] < |log| && out[k] == log[at[k]] && out[k].org == org)
  }

  /** The places are those of all records of org. */
  ghost predicate PlacesOf(log: seq<Record>, org: string, at: seq<nat>) {
    && (forall k | 0 <= k < |at| :: at[k] < |log| && log[at[k]].org == org)
    && (forall i | 0 <= i < |log| && log[i].org == org :: i in at)
  }

  lemma OneOther(out: seq<Record>, log: seq<Record>, r: Record, org: string, at: seq<nat>)
    requires NewestOf(out, log, org, at) && PlacesOf(log, org, at) && r.org != org
    ensures NewestOf(out, log + [r], org, at) && PlacesOf(log + [r], org, at)
  {
    var log2 := log + [r];
    forall i | 0 <= i < |log2| && log2[i].org == org ensures i in at { assert i < |log| && log[i].org == org; }
  }

  lemma OneNewer(out: seq<Record>, log: seq<Record>, r: Record, org: string, at: seq<nat>)
    requires NewestOf(out, log, org, at) && PlacesOf(log, org, at) && r.org == org
    ensures NewestOf([r] + out, log + [r], org, [|log|] + at) && PlacesOf(log + [r], org, [|log|] + at)
  {
    var log2, at2, out2 := log + [r], [|log|] + at, [r] + out;
    forall k | 0 <= k < |at2| ensures at2[k] < |log2| && out2[k] == log2[at2[k]] && log2[at2[k]].org == org {
      if k > 0 { assert at2[k] == at[k - 1] && out2[k] == out[k - 1]; }
    }
    forall j, k | 0 <= j < k < |at2| ensures at2[j] > at2[k] {
      assert at2[k] == at[k - 1];
      if j > 0 { assert at2[j] == at[j - 1]; }
    }
    forall i | 0 <= i < |log2| && log2[i].org == org ensures i in at2 {
      if i < |log| { assert log[i].org == org && i in at; }
    }
  }

  /** Where in the log the records of org are, newest first. */
  lemma {:induction false} NewestAt(log: seq<Record>, org: string) returns (at: seq<nat>)
    ensures NewestOf(NewestFirst(log, org), log, org, at) && PlacesOf(log, org, at)
  {
    at := [];
    if log != [] {
      var n := |log| - 1;
      at := NewestAt(log[..n], org);
      assert log == log[..n] + [log[n]];
      if log[n].org == org {
        OneNewer(NewestFirst(log[..n], org), log[..n], log[n], org, at);
        at := [n] + at;
      } else {
        OneOther(NewestFirst(log[..n], org), log[..n], log[n], org, at);
        assert [] + NewestFirst(log[..n], org) == NewestFirst(log[..n], org);
      }
    }
  }

  /** Record i is of org and not among those, and all of them are newer. */
  ghost predicate LeftOut(log: seq<Record>, org: string, at: seq<nat>, i: nat)
    requires i < |log|
  {
    log[i].org == org && i !in at && forall k | 0 <= k < |at| :: at[k] > i
  }

  lemma FirstOfNewest(all: seq<Record>, log: seq<Record>, org: string, at: seq<nat>, n: nat, i: nat)
    requires NewestOf(all, log, org, at) && n <= |at| && i in at && i !in at[..n]
    ensures i < |log| && LeftOut(log, org, at[..n], i)
  {
    var j :| 0 <= j < |at| && at[j] == i;
  }

  /** A listing of org holds, newest first and each once, its newest records up to the limit, all of them
      when there is none, and no other org's. */
  lemma ListedIsNewest(log: seq<Record>, org: string, limit: int) returns (at: seq<nat>)
    ensures var out := Listed(log, org, limit);
            && NewestOf(out, log, org, at) && (limit > 0 ==> |out| <= limit)
            && forall i | 0 <= i < |log| && log[i].org == org ::
               i in at || (0 < limit == |out| && LeftOut(log, org, at, i))
  {
    var all := NewestFirst(log, org);
    var places := NewestAt(log, org);
    var n := if 0 < limit < |all| then limit else |all|;
    at := places[..n];
    forall i | 0 <= i < |log| && log[i].org == org && i !in at ensures n == limit && LeftOut(log, org, at, i) {
      FirstOfNewest(all, log, org, places, n, i);
    }
  }

  method ListRecords(log: seq<Record>, org: string, limit: int) returns (out: seq<Record>)
    ensures out == Listed(log, org, limit)
  {
    out := [];
    ghost var all := NewestFirst(log, org);
    ghost var rest := all;
    var i := |log|;
    assert log[..|log|] == log;
    while i > 0
      invariant 0 <= i <= |log|
      invariant rest == NewestFirst(log[..i], org) && all == out + rest
      invariant limit > 0 ==> |out| < limit
    {
      i := i - 1;
      NewestNext(log, org, i);
      if log[i].org != org { continue; }
      MoveOver(out, log[i], NewestFirst(log[..i], org));
      out, rest := out + [log[i]], NewestFirst(log[..i], org);
      if limit > 0 && |out| >= limit { break; }
    }
    assert out == if 0 < limit < |all| then all[..limit] else all;
  }

  lemma MoveOver<T>(a: seq<T>, x: T, b: seq<T>)
    ensures a + ([x] + b) == (a + [x]) + b
  {
  }

  method VerifyRecords(h: Hash, log: seq<Record>) returns (ok: bool)
    ensures ok <==> Chained(Digest(h), log)
  {
    var prev := "";
    for i := 0 to |log|
      invariant prev == HashBefore(log, i)
      invariant forall j | 0 <= j < i :: Follows(Digest(h), log, j)
    {
      var hash := HashRecord(h, log[i]);
      if log[i].prevHash != prev || log[i].hash != hash {
        assert !Follows(Digest(h), log, i);
        return false;
      }
      prev := log[i].hash;
    }
    return true;
  }

  class MemLogger {
    const hash: Hash
    var records: seq<Record>

    constructor (hash: Hash)
      ensures this.hash == hash && records == []
    {
      this.hash, records := hash, [];
    }

    method RecordEvent(e: Event, now: int)
      modifies this
      ensures records == Appended(Digest(hash), old(records), e, now)
    {
      var prev := "";
      var n := |records|;
      if n > 0 { prev := records[n - 1].hash; }
      var r := Unsealed(n + 1, prev, e, now);
      var sum := HashRecord(hash, r);
      records := records + [r.(hash := sum)];
    }

    method List(org: string, limit: int) returns (out: seq<Record>)
      ensures out == Listed(records, org, limit)
    {
      out := ListRecords(records, org, limit);
    }

    method Verify() returns (ok: bool)
      ensures ok <==> Chained(Digest(hash), records)
    {
      ok := VerifyRecords(hash, records);
    }
  }
}
