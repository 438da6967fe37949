/** Where credentials are kept: one flat store, with org-level and per-user references as keys. */
module Secrets {
  import opened Wrappers
  import opened Text

  type Values = map<string, string>

  function OrgRef(org: string, serverId: string): string {
    "org/" + org + "/server/" + serverId
  }

  function UserRef(org: string, serverId: string, userId: string): string {
    "org/" + org + "/server/" + serverId + "/user/" + userId
  }

  predicate SlashFree(s: string) { '/' !in s }

  /** The part of a reference after "org/", split where the org ends. */
  lemma OrgSplit(o1: string, r1: string, o2: string, r2: string)
    requires SlashFree(o1) && SlashFree(o2)
    requires "org/" + o1 + "/server/" + r1 == "org/" + o2 + "/server/" + r2
    ensures o1 == o2 && r1 == r2
  {
    Strip("org/", o1 + "/server/" + r1, o2 + "/server/" + r2);
    assert "org/" + o1 + "/server/" + r1 == "org/" + (o1 + "/server/" + r1);
    assert "org/" + o2 + "/server/" + r2 == "org/" + (o2 + "/server/" + r2);
    assert "/server/" == ['/'] + "server/";
    assert o1 + "/server/" + r1 == o1 + ['/'] + ("server/" + r1);
    assert o2 + "/server/" + r2 == o2 + ['/'] + ("server/" + r2);
    CutUnique('/', o1, "server/" + r1, o2, "server/" + r2);
    Strip("server/", r1, r2);
  }

  lemma Strip(p: string, a: string, b: string)
    ensures p + a == p + b ==> a == b
  {
    assert (p + a)[|p|..] == a && (p + b)[|p|..] == b;
  }

  lemma OrgRefInjective(o1: string, s1: string, o2: string, s2: string)
    requires SlashFree(o1) && SlashFree(o2)
    requires OrgRef(o1, s1) == OrgRef(o2, s2)
    ensures o1 == o2 && s1 == s2
  {
    OrgSplit(o1, s1, o2, s2);
  }

  lemma UserTail(s: string, u: string)
    ensures s + "/user/" + u == s + ['/'] + ("user/" + u)
  {
    assert "/user/" == ['/'] + "user/";
  }

  /** A user id may hold anything; org and server ids must be free of slashes. */
  lemma UserRefInjective(o1: string, s1: string, u1: string, o2: string, s2: string, u2: string)
    requires SlashFree(o1) && SlashFree(o2) && SlashFree(s1) && SlashFree(s2)
    requires UserRef(o1, s1, u1) == UserRef(o2, s2, u2)
    ensures o1 == o2 && s1 == s2 && u1 == u2
  {
    assert UserRef(o1, s1, u1) == "org/" + o1 + "/server/" + (s1 + "/user/" + u1);
    assert UserRef(o2, s2, u2) == "org/" + o2 + "/server/" + (s2 + "/user/" + u2);
    OrgSplit(o1, s1 + "/user/" + u1, o2, s2 + "/user/" + u2);
    UserTail(s1, u1);
    UserTail(s2, u2);
    CutUnique('/', s1, "user/" + u1, s2, "user/" + u2);
    Strip("user/", u1, u2);
  }

  lemma OrgRefIsNoUserRef(o1: string, s1: string, o2: string, s2: string, u2: string)
    requires SlashFree(o1) && SlashFree(o2) && SlashFree(s1)
    ensures OrgRef(o1, s1) != UserRef(o2, s2, u2)
  {
    assert UserRef(o2, s2, u2) == "org/" + o2 + "/server/" + (s2 + "/user/" + u2);
    assert (s2 + "/user/" + u2)[|s2|] == '/';
    if OrgRef(o1, s1) == UserRef(o2, s2, u2) {
      OrgSplit(o1, s1, o2, s2 + "/user/" + u2);
    }
  }

  /** With slash-free orgs the two kinds of reference meet in just one way: the server id of the one
      spells out the user part of the other. */
  lemma OrgRefIsUserRefIff(o1: string, s1: string, o2: string, s2: string, u2: string)
    requires SlashFree(o1) && SlashFree(o2)
    ensures OrgRef(o1, s1) == UserRef(o2, s2, u2) <==> o1 == o2 && s1 == s2 + "/user/" + u2
  {
    assert UserRef(o2, s2, u2) == "org/" + o2 + "/server/" + (s2 + "/user/" + u2);
    if OrgRef(o1, s1) == UserRef(o2, s2, u2) {
      OrgSplit(o1, s1, o2, s2 + "/user/" + u2);
    }
  }

  /** A slash in an org lets the secrets of two orgs share a reference. */
  lemma SlashCollides(org: string, infix: string, id: string)
    ensures OrgRef(org + "/server/" + infix, id) == OrgRef(org, infix + "/server/" + id)
  {
    assert "org/" + (org + "/server/" + infix) + "/server/" + id ==
           "org/" + org + "/server/" + (infix + "/server/" + id);
  }

  class MemStore {
    var m: map<string, Values>

    constructor ()
      ensures m == map[]
    {
      m := map[];
    }

    method Put(reference: string, values: Values)
      modifies this
      ensures m == old(m)[reference := values]
    {
      var copy := Clone(values);
      m := m[reference := copy];
    }

    method Get(reference: string) returns (r: Option<Values>)
      ensures r == if reference in m then Some(m[reference]) else None
    {
      if reference !in m { return None; }
      var copy := Clone(m[reference]);
      r := Some(copy);
    }

    method Delete(reference: string)
      modifies this
      ensures m == old(m) - {reference}
    {
      m := m - {reference};
    }
  }

  /** A copy made entry by entry, whatever the iteration order, is the whole map. */
  method Clone(m: Values) returns (cp: Values)
    ensures cp == m
  {
    cp := map[];
    var rest := m.Keys;
    while rest != {}
      invariant rest <= m.Keys && cp.Keys == m.Keys - rest
      invariant forall k | k in cp :: cp[k] == m[k]
      decreases rest
    {
      var k :| k in rest;
      cp := cp[k := m[k]];
      rest := rest - {k};
    }
  }
}
