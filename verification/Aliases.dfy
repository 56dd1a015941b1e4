/** The aliases of the price entries; they are taken as already trimmed. */
module Aliases {
  import opened Bytes
  import Pricing

  type Namespace = map<string, seq<string>>

  predicate Owns(entries: Namespace, owner: string, alias: string) {
    owner in entries && alias in entries[owner]
  }

  /** An alias is a new, non-empty name that one entry lists once. */
  ghost predicate Accepted(entries: Namespace) {
    && (forall owner, alias | Owns(entries, owner, alias) :: alias != "" && alias !in entries)
    && (forall o1, o2, alias | Owns(entries, o1, alias) && Owns(entries, o2, alias) :: o1 == o2)
    && (forall owner | owner in entries :: Distinct(entries[owner]))
  }

  predicate Distinct(names: seq<string>) { forall i, j | 0 <= i < j < |names| :: names[i] != names[j] }

  /** What one entry must be, given the aliases of the entries walked before it. */
  predicate EntryOk(entries: Namespace, list: seq<string>, before: map<string, string>) {
    Distinct(list) && forall a | a in list :: a != "" && a !in entries && a !in before
  }

  /** The aliases of one entry are added to those seen, unless one of them is refused. */
  method CheckEntry(entries: Namespace, name: string, before: map<string, string>)
    returns (ok: bool, seen: map<string, string>)
    requires name in entries
    ensures ok <==> EntryOk(entries, entries[name], before)
    ensures ok ==> forall a :: a in seen <==> a in before || a in entries[name]
    ensures ok ==> forall a | a in seen :: seen[a] == if a in entries[name] then name else before[a]
  {
    var list := entries[name];
    seen := before;
    for i := 0 to |list|
      invariant EntryOk(entries, list[..i], before)
      invariant forall a :: a in seen <==> a in before || a in list[..i]
      invariant forall a | a in seen :: seen[a] == if a in list[..i] then name else before[a]
    {
      var alias := list[i];
      assert alias in list;
      if alias == "" || alias in entries || alias in seen { return false, seen; }
      seen := seen[alias := name];
      assert list[..i + 1] == list[..i] + [alias];
    }
    assert list[..|list|] == list;
    return true, seen;
  }

  /** The entries walked so far are accepted among themselves, and `seen` says who owns what in them. */
  ghost predicate SeenSoFar(entries: Namespace, walked: seq<string>, seen: map<string, string>) {
    && (forall n | n in walked :: n in entries && Distinct(entries[n]))
    && (forall a | a in seen :: a != "" && a !in entries && seen[a] in walked && Owns(entries, seen[a], a))
    && (forall n, a | n in walked && Owns(entries, n, a) :: a in seen && seen[a] == n)
  }

  lemma EntryAllowed(entries: Namespace, walked: seq<string>, seen: map<string, string>, name: string)
    requires Accepted(entries) && SeenSoFar(entries, walked, seen) && name in entries && name !in walked
    ensures EntryOk(entries, entries[name], seen)
  {
    assert forall a | a in seen :: Owns(entries, seen[a], a) && seen[a] != name;
    forall a | a in entries[name] ensures a != "" && a !in entries && a !in seen {
      assert Owns(entries, name, a);
    }
  }

  /** The verdict is that of the definition, in whatever order the entries are walked. */
  method ValidateAliasNamespace(entries: Namespace, names: seq<string>) returns (ok: bool)
    requires Distinct(names) && forall n :: n in names <==> n in entries
    ensures ok <==> Accepted(entries)
  {
    hide EntryOk;
    var seen: map<string, string> := map[];
    for k := 0 to |names|
      invariant SeenSoFar(entries, names[..k], seen)
    {
      var name := names[k];
      assert name in names && name !in names[..k];
      var entryOk, grown := CheckEntry(entries, name, seen);
      if !entryOk {
        if Accepted(entries) { EntryAllowed(entries, names[..k], seen, name); }
        return false;
      }
      SeenGrows(entries, names[..k], seen, name, grown);
      assert names[..k + 1] == names[..k] + [name];
      seen := grown;
    }
    assert names[..|names|] == names;
    return true;
  }

  lemma SeenGrows(entries: Namespace, walked: seq<string>, seen: map<string, string>, name: string,
                  grown: map<string, string>)
    requires SeenSoFar(entries, walked, seen) && name in entries && name !in walked
    requires EntryOk(entries, entries[name], seen)
    requires forall a :: a in grown <==> a in seen || a in entries[name]
    requires forall a | a in grown :: grown[a] == if a in entries[name] then name else seen[a]
    ensures SeenSoFar(entries, walked + [name], grown)
  {}

  /** A later entry takes over an alias; a valid namespace has no such entry. */
  method BuildAliasIndex(entries: Namespace, names: seq<string>) returns (index: map<string, string>)
    requires forall n :: n in names <==> n in entries
    ensures IsIndex(entries, index)
  {
    index := map[];
    for k := 0 to |names|
      invariant forall n, a | n in names[..k] && Owns(entries, n, a) && a != "" :: a in index
      invariant forall a | a in index :: a != "" && Owns(entries, index[a], a)
    {
      var name := names[k];
      assert name in names;
      var list := entries[name];
      ghost var before := index;
      for i := 0 to |list|
        invariant forall a | a in before :: a in index
        invariant forall a | a in list[..i] && a != "" :: a in index
        invariant forall a | a in index :: a != "" && Owns(entries, index[a], a)
      {
        if list[i] != "" { index := index[list[i] := name]; }
        assert list[..i + 1] == list[..i] + [list[i]];
      }
      assert list[..|list|] == list;
      assert names[..k + 1] == names[..k] + [name];
    }
    assert names[..|names|] == names;
  }

  /** In an accepted namespace the index is the same for every walk, and no alias hides an entry. */
  lemma IndexIsUnique(entries: Namespace, i1: map<string, string>, i2: map<string, string>)
    requires Accepted(entries)
    requires forall a :: a in i1 <==> a in i2
    requires forall a | a in i1 :: Owns(entries, i1[a], a) && Owns(entries, i2[a], a)
    ensures i1 == i2
    ensures forall a | a in i1 :: a !in entries && i1[a] in entries
  {
    forall a | a in i1 ensures i1[a] == i2[a] && a !in entries && i1[a] in entries {
      assert Owns(entries, i1[a], a) && Owns(entries, i2[a], a);
    }
  }

  /** The index has the aliases of the entries, each with an owner of it. */
  ghost predicate IsIndex(entries: Namespace, index: map<string, string>) {
    && (forall a :: a in index <==> a != "" && exists n :: Owns(entries, n, a))
    && (forall a | a in index :: Owns(entries, index[a], a))
  }

  /**
   Which price a name gets in an accepted namespace: its own entry's, or that of the entry whose alias it is, or that of
   the entry it is a dated form of, in this order, and none when it is neither.
   */
  lemma ResolveExactly<T>(entries: Namespace, index: map<string, string>, prices: map<string, T>, model: string)
    requires Accepted(entries) && IsIndex(entries, index) && prices.Keys == entries.Keys
    ensures var found := Pricing.Resolve(prices, index, model);
      && (model in entries ==> found == Some(prices[model]))
      && (forall owner | Owns(entries, owner, model) :: found == Some(prices[owner]))
      && (model !in entries && (forall owner :: !Owns(entries, owner, model)) ==>
            if Pricing.Canonicalize(model) != model && Pricing.Canonicalize(model) in entries
            then found == Some(prices[Pricing.Canonicalize(model)]) else found == None)
  {
    hide Pricing.Canonicalize;
    if model in index { assert Owns(entries, index[model], model); }
    forall owner | Owns(entries, owner, model) ensures Pricing.Resolve(prices, index, model) == Some(prices[owner]) {
      assert model in index && Owns(entries, index[model], model);
    }
  }
}
