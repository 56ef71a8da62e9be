/** The path-prefix access list: a vector of rules that behaves as a finite map. */
module Acls {
  import opened Basics
  import Assoc
  import PrefixMatch
  import Text

  /** A rule: path prefix and minimum role. */
  type AclEntry = Assoc.Entry<string, Role>

  /** The role a path needs: that of its longest matching prefix, Admin without one. */
  function Required(rules: map<string, Role>, path: string): Role {
    match PrefixMatch.Longest(rules.Keys, path)
    case Some(p) => rules[p]
    case None => Admin
  }

  predicate Authorized(rules: map<string, Role>, role: Role, path: string) {
    Satisfies(role, Required(rules, path))
  }

  class Acl {
    var entries: seq<AclEntry>

    ghost predicate Valid()
      reads this
    {
      Assoc.UniqueKeys(entries)
    }

    ghost function View(): map<string, Role>
      requires Valid()
      reads this
    {
      Assoc.ToMap(entries)
    }

    constructor ()
      ensures Valid() && View() == map[]
    {
      entries := [];
    }

    /** One scan with a running best candidate. */
    method Authorize(role: Role, path: string) returns (allowed: bool)
      requires Valid()
      ensures allowed == Authorized(View(), role, path)
    {
      var best: Option<AclEntry> := None;
      var i := 0;
      while i < |entries|
        invariant 0 <= i <= |entries|
        invariant best.None? ==> forall j | 0 <= j < i :: !(entries[j].key <= path)
        invariant best.Some? ==> best.value in entries && best.value.key <= path
        invariant best.Some? ==> forall j | 0 <= j < i && entries[j].key <= path ::
                    |entries[j].key| <= |best.value.key|
      {
        if entries[i].key <= path {
          if best.None? || |entries[i].key| > |best.value.key| {
            best := Some(entries[i]);
          }
        }
        i := i + 1;
      }
      ghost var keys := View().Keys;
      Assoc.Exact(entries);
      assert forall p | p in keys :: Assoc.Entry(p, View()[p]) in entries;
      assert forall j | 0 <= j < |entries| :: Assoc.Entry(entries[j].key, entries[j].value) in entries;
      if best.Some? {
        assert Assoc.Entry(best.value.key, best.value.value) in entries;
        PrefixMatch.LongestIs(keys, path, best.value.key);
      } else {
        PrefixMatch.LongestIsNone(keys, path);
      }
      var required := if best.Some? then best.value.value else Admin;
      allowed := Satisfies(role, required);
    }

    /** Upsert: overwrite the rule in place, else append it. */
    method Set(prefix: string, minRole: Role)
      requires Valid()
      modifies this
      ensures Valid() && View() == old(View())[prefix := minRole]
    {
      var i := 0;
      while i < |entries|
        invariant 0 <= i <= |entries|
        invariant entries == old(entries)
        invariant forall j | 0 <= j < i :: entries[j].key != prefix
      {
        if entries[i].key == prefix {
          Assoc.Overwrite(entries, i, minRole);
          entries := entries[i := Assoc.Entry(prefix, minRole)];
          return;
        }
        i := i + 1;
      }
      Assoc.AppendOne(entries, Assoc.Entry(prefix, minRole));
      entries := entries + [Assoc.Entry(prefix, minRole)];
    }

    /** Erase-remove: keep, in order, every rule with another prefix. */
    method Remove(prefix: string)
      requires Valid()
      modifies this
      ensures Valid() && View() == old(View()) - {prefix}
      ensures entries == Assoc.Without(old(entries), prefix)
    {
      hide Assoc.ToMap;
      var kept: seq<AclEntry> := [];
      var i := 0;
      while i < |entries|
        invariant 0 <= i <= |entries|
        invariant entries == old(entries)
        invariant kept == Assoc.Without(entries[..i], prefix)
      {
        Assoc.WithoutOne(entries[..i], entries[i], prefix);
        assert entries[..i + 1] == entries[..i] + [entries[i]];
        if entries[i].key != prefix {
          kept := kept + [entries[i]];
        }
        i := i + 1;
      }
      assert entries[..i] == entries;
      Assoc.WithoutDrops(entries, prefix);
      Assoc.WithoutUnique(entries, prefix);
      entries := kept;
    }
  }

  /** The decision does not depend on the order of the vector: two vectors with
      the same rules need the same role on every path. */
  lemma OrderIrrelevant(a: seq<AclEntry>, b: seq<AclEntry>, path: string)
    requires Assoc.UniqueKeys(a) && Assoc.UniqueKeys(b)
    requires forall e :: e in a <==> e in b
    ensures Required(Assoc.ToMap(a), path) == Required(Assoc.ToMap(b), path)
  {
    Assoc.SameEntries(a, b);
  }

  /** Setting a rule changes exactly the paths whose longest match it then is. */
  lemma SetIsLocal(rules: map<string, Role>, p: string, r: Role, path: string)
    ensures var after := rules[p := r];
            Required(after, path)
            == if PrefixMatch.Longest(after.Keys, path) == Some(p) then r else Required(rules, path)
  {
    var after := rules[p := r];
    var best := PrefixMatch.Longest(after.Keys, path);
    if best.None? {
      PrefixMatch.LongestIsNone(rules.Keys, path);
    } else if best.value != p {
      PrefixMatch.LongestIs(rules.Keys, path, best.value);
    }
  }

  /** Removing a rule falls back to the next shorter match, or to Admin; paths
      it did not decide keep their answer. */
  lemma RemoveFallsBack(rules: map<string, Role>, p: string, path: string)
    ensures var before := PrefixMatch.Longest(rules.Keys, path);
            var after := Required(rules - {p}, path);
            if before != Some(p) then after == Required(rules, path)
            else if p == "" then after == Admin
            else match PrefixMatch.LongestWithin(rules.Keys, path, |p| - 1)
                 case Some(q) => after == rules[q]
                 case None => after == Admin
  {
    var before := PrefixMatch.Longest(rules.Keys, path);
    var keys := (rules - {p}).Keys;
    if before != Some(p) {
      if before.None? {
        PrefixMatch.LongestIsNone(keys, path);
      } else {
        PrefixMatch.LongestIs(keys, path, before.value);
      }
    } else {
      assert forall q: string | q <= path && |q| == |p| :: q == path[..|p|];
      var next := if p == "" then None else PrefixMatch.LongestWithin(rules.Keys, path, |p| - 1);
      if next.None? {
        PrefixMatch.LongestIsNone(keys, path);
      } else {
        PrefixMatch.LongestIs(keys, path, next.value);
      }
    }
  }

  /** Removing a rule that was just added where there was none restores every decision. */
  lemma RemoveUndoesSet(rules: map<string, Role>, p: string, r: Role, role: Role, path: string)
    requires p !in rules
    ensures Authorized(rules[p := r] - {p}, role, path) == Authorized(rules, role, path)
  {
    assert rules[p := r] - {p} == rules;
  }

  /** Raising a rule's requirement, or lowering the caller's role, never opens a path. */
  lemma GateIsMonotone(rules: map<string, Role>, p: string, r: Role, low: Role, high: Role, path: string)
    requires Satisfies(high, low)
    requires p in rules ==> Satisfies(r, rules[p])
    requires p !in rules ==> Satisfies(r, Required(rules, p))
    ensures Authorized(rules[p := r], low, path) ==> Authorized(rules, high, path)
  {
    SetIsLocal(rules, p, r, path);
    var after := rules[p := r];
    if PrefixMatch.Longest(after.Keys, path) == Some(p) {
      if p in rules {
        PrefixMatch.LongestIs(rules.Keys, path, p);
      } else {
        assert after.Keys == rules.Keys + {p};
        SameMatchBelow(rules, p, path);
      }
    }
  }

  /** When an absent p would be the longest match of a path, the path is decided
      by the rule that decides p itself. */
  lemma SameMatchBelow(rules: map<string, Role>, p: string, path: string)
    requires p !in rules && PrefixMatch.Longest(rules.Keys + {p}, path) == Some(p)
    ensures Required(rules, path) == Required(rules, p)
  {
    var best := PrefixMatch.Longest(rules.Keys, p);
    assert forall q: string | q <= path && |q| <= |p| :: q == path[..|q|] == p[..|q|];
    if best.None? {
      PrefixMatch.LongestIsNone(rules.Keys, path);
    } else {
      PrefixMatch.LongestIs(rules.Keys, path, best.value);
    }
  }

  /** The rules decide a URI and its query-free path alike. */
  ghost predicate QueryBlind(rules: map<string, Role>) {
    forall uri :: Required(rules, uri) == Required(rules, Text.Until(uri, '?'))
  }

  /** Cutting the query can only drop matching prefixes that contain a '?'. */
  lemma CutKeepsMatch(rules: map<string, Role>, uri: string)
    ensures var best := PrefixMatch.Longest(rules.Keys, uri);
            best.None? || '?' !in best.value
            ==> Required(rules, uri) == Required(rules, Text.Until(uri, '?'))
  {
    var best := PrefixMatch.Longest(rules.Keys, uri);
    var cut := Text.Until(uri, '?');
    if best.None? {
      PrefixMatch.LongestIsNone(rules.Keys, cut);
    } else if '?' !in best.value {
      assert forall i | 0 <= i < |best.value| :: uri[i] != '?';
      PrefixMatch.LongestIs(rules.Keys, cut, best.value);
    }
  }

  lemma RuleDecidesItself(rules: map<string, Role>, q: string)
    requires q in rules
    ensures Required(rules, q) == rules[q]
  {
    PrefixMatch.LongestIs(rules.Keys, q, q);
  }

  /** A URI is decided like its query-free part if the rules with a '?' are. */
  lemma CutIsBlind(rules: map<string, Role>, uri: string)
    requires forall q | q in rules && '?' in q :: rules[q] == Required(rules, Text.Until(q, '?'))
    ensures Required(rules, uri) == Required(rules, Text.Until(uri, '?'))
  {
    CutKeepsMatch(rules, uri);
    hide Text.IndexOf;
    var best := PrefixMatch.Longest(rules.Keys, uri);
    if best.Some? && '?' in best.value {
      var cut := Text.Until(best.value, '?');
      assert uri[|cut|] == best.value[|cut|] == '?';
      Text.UntilUnique(uri, '?', cut);
    }
  }

  /** The exact condition: every rule whose prefix contains a '?' must ask for
      the role its own query-free part already needs. In particular rules
      without a '?' are always blind to the query. */
  lemma QueryBlindExactly(rules: map<string, Role>)
    ensures QueryBlind(rules)
            <==> forall q | q in rules && '?' in q :: rules[q] == Required(rules, Text.Until(q, '?'))
  {
    hide Text.Until, PrefixMatch.Longest, Required;
    if QueryBlind(rules) {
      forall q | q in rules && '?' in q ensures rules[q] == Required(rules, Text.Until(q, '?')) {
        RuleDecidesItself(rules, q);
        assert Required(rules, q) == Required(rules, Text.Until(q, '?'));
      }
    }
    if forall q | q in rules && '?' in q :: rules[q] == Required(rules, Text.Until(q, '?')) {
      forall uri ensures Required(rules, uri) == Required(rules, Text.Until(uri, '?')) {
        CutIsBlind(rules, uri);
      }
    }
  }

  /** What a decision means: the longest rule that matches the path asks for its role,
      and where no rule matches, only an Admin is let in. */
  lemma WhatDecides(rules: map<string, Role>, role: Role, path: string)
    ensures forall q | q in rules && q <= path && (forall p | p in rules && p <= path :: |p| <= |q|) ::
              Authorized(rules, role, path) <==> Satisfies(role, rules[q])
    ensures (forall p | p in rules :: !(p <= path)) ==> (Authorized(rules, role, path) <==> role == Admin)
  {
    forall q | q in rules && q <= path && (forall p | p in rules && p <= path :: |p| <= |q|)
      ensures Authorized(rules, role, path) <==> Satisfies(role, rules[q])
    {
      PrefixMatch.LongestIs(rules.Keys, path, q);
    }
    if forall p | p in rules :: !(p <= path) {
      PrefixMatch.LongestIsNone(rules.Keys, path);
    }
  }
}
