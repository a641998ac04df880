/** The records of dynamic permissions (Bot.Core/DynPerm/JsonData.cs) and
    their normalising constructors: missing lists and sets become empty ones and
    every module/command set ends up compared case-insensitively.

    A `HashSet<string>` is modelled by its elements in enumeration order and its
    comparer; a `null` argument is `None`. */
module DynPermData {
  import opened Wrappers
  import opened Text

  /** `StringComparer.OrdinalIgnoreCase`, or any other comparer, which the model
      takes to be ordinal equality. */
  datatype Comparer = OrdinalIgnoreCase | OtherComparer

  predicate Equivalent(comparer: Comparer, a: string, b: string) {
    if comparer == OrdinalIgnoreCase then SameIgnoringCase(a, b) else a == b
  }

  datatype StringSet = StringSet(elems: seq<string>, comparer: Comparer)

  /** A hash set never holds two elements its comparer calls equal. */
  predicate WellFormed(s: StringSet) {
    forall i, j :: 0 <= i < j < |s.elems| ==> !Equivalent(s.comparer, s.elems[i], s.elems[j])
  }

  predicate DistinctIgnoringCase(xs: seq<string>) {
    forall i, j :: 0 <= i < j < |xs| ==> !SameIgnoringCase(xs[i], xs[j])
  }

  /** Some element of `xs` equals `x` ignoring case. */
  predicate HasEquivalent(xs: seq<string>, x: string) {
    exists y :: y in xs && SameIgnoringCase(x, y)
  }

  /** `new HashSet<string>(xs, OrdinalIgnoreCase)`: elements are added in order
      and one equal ignoring case to an earlier one is dropped. */
  function DedupIgnoreCase(xs: seq<string>): (r: seq<string>)
    ensures forall y :: y in r ==> y in xs
    ensures forall x :: x in xs ==> HasEquivalent(r, x)
    ensures DistinctIgnoringCase(r)
    ensures |r| <= |xs|
    decreases |xs|
  {
    if xs == [] then []
    else
      var front := xs[..|xs| - 1];
      var last := xs[|xs| - 1];
      var kept := DedupIgnoreCase(front);
      assert xs == front + [last];
      if HasEquivalent(kept, last) then kept
      else
        DedupStep(front, last, kept);
        kept + [last]
  }

  /** Adding an element that has no equivalent yet keeps the three properties
      of `DedupIgnoreCase`. */
  lemma DedupStep(front: seq<string>, last: string, kept: seq<string>)
    requires forall y :: y in kept ==> y in front
    requires forall x :: x in front ==> HasEquivalent(kept, x)
    requires DistinctIgnoringCase(kept)
    requires !HasEquivalent(kept, last)
    ensures forall y :: y in kept + [last] ==> y in front + [last]
    ensures forall x :: x in front + [last] ==> HasEquivalent(kept + [last], x)
    ensures DistinctIgnoringCase(kept + [last])
  {
    var r := kept + [last];
    forall x | x in front + [last] ensures HasEquivalent(r, x) {
      if x == last {
        assert last in r && SameIgnoringCase(x, last);
      } else {
        assert x in front;
        var y :| y in kept && SameIgnoringCase(x, y);
        assert y in r;
      }
    }
    forall i, j | 0 <= i < j < |r| ensures !SameIgnoringCase(r[i], r[j]) {
      if j == |kept| {
        assert r[i] == kept[i] && r[i] in kept;
        assert !SameIgnoringCase(last, kept[i]);
      } else {
        assert r[i] == kept[i] && r[j] == kept[j];
      }
    }
  }

  /** Elements that are already distinct ignoring case are all kept, in order. */
  lemma {:induction false} DedupOfDistinct(xs: seq<string>)
    requires DistinctIgnoringCase(xs)
    ensures DedupIgnoreCase(xs) == xs
    decreases |xs|
  {
    if xs != [] {
      var front := xs[..|xs| - 1];
      var last := xs[|xs| - 1];
      assert DistinctIgnoringCase(front) by {
        forall i, j | 0 <= i < j < |front| ensures !SameIgnoringCase(front[i], front[j]) {
          assert front[i] == xs[i] && front[j] == xs[j];
        }
      }
      DedupOfDistinct(front);
      assert !HasEquivalent(front, last) by {
        forall y | y in front ensures !SameIgnoringCase(last, y) {
          var i :| 0 <= i < |front| && front[i] == y;
          assert !SameIgnoringCase(xs[i], xs[|xs| - 1]);
        }
      }
      assert front + [last] == xs;
    }
  }

  /** The set normalisation of the `ModuleCommandPair` constructor. */
  function NormalizeSet(s: Option<StringSet>): (r: StringSet)
    requires s.Some? ==> WellFormed(s.value)
    ensures r.comparer == OrdinalIgnoreCase && WellFormed(r)
    ensures s.None? ==> r.elems == []
    ensures s.Some? && s.value.comparer == OrdinalIgnoreCase ==> r == s.value
    ensures s.Some? ==> forall y :: y in r.elems ==> y in s.value.elems
    ensures s.Some? ==> forall x :: x in s.value.elems ==> HasEquivalent(r.elems, x)
  {
    match s
    case None => StringSet([], OrdinalIgnoreCase)
    case Some(set0) =>
      if set0.comparer == OrdinalIgnoreCase then set0
      else StringSet(DedupIgnoreCase(set0.elems), OrdinalIgnoreCase)
  }

  /** Normalising twice is normalising once. */
  lemma NormalizeSetIdempotent(s: Option<StringSet>)
    requires s.Some? ==> WellFormed(s.value)
    ensures NormalizeSet(Some(NormalizeSet(s))) == NormalizeSet(s)
  {
  }

  /** An ordinal set of distinct-ignoring-case names is copied as it is. */
  lemma NormalizeSetKeepsDistinct(elems: seq<string>)
    requires DistinctIgnoringCase(elems)
    ensures WellFormed(StringSet(elems, OtherComparer))
    ensures NormalizeSet(Some(StringSet(elems, OtherComparer))) == StringSet(elems, OrdinalIgnoreCase)
  {
    DedupOfDistinct(elems);
  }

  /** Names that differ only in case collapse into the first one. */
  lemma NormalizeSetCollapsesCase()
    ensures NormalizeSet(Some(StringSet(["Audio", "audio"], OtherComparer))).elems == ["Audio"]
  {
    var xs := ["Audio", "audio"];
    assert xs[..1] == ["Audio"];
    assert DedupIgnoreCase(["Audio"]) == ["Audio"] by {
      assert ["Audio"][..0] == [];
    }
    assert SameIgnoringCase("audio", "Audio");
  }

  datatype ModuleCommandPair = ModuleCommandPair(modules: StringSet, commands: StringSet)

  /** The JSON constructor of `ModuleCommandPair`. */
  function NewModuleCommandPair(modules: Option<StringSet>, commands: Option<StringSet>): (r: ModuleCommandPair)
    requires modules.Some? ==> WellFormed(modules.value)
    requires commands.Some? ==> WellFormed(commands.value)
    ensures r.modules.comparer == OrdinalIgnoreCase && r.commands.comparer == OrdinalIgnoreCase
    ensures WellFormed(r.modules) && WellFormed(r.commands)
    ensures modules.None? ==> r.modules.elems == []
    ensures commands.None? ==> r.commands.elems == []
  {
    ModuleCommandPair(NormalizeSet(modules), NormalizeSet(commands))
  }

  /** `new ModuleCommandPair()`. */
  function EmptyPair(): (r: ModuleCommandPair)
    ensures r.modules == StringSet([], OrdinalIgnoreCase) && r.commands == StringSet([], OrdinalIgnoreCase)
  {
    NewModuleCommandPair(None, None)
  }

  /** A pair that came out of the constructor is unchanged by it. */
  lemma NewModuleCommandPairIdempotent(p: ModuleCommandPair)
    requires p.modules.comparer == OrdinalIgnoreCase && WellFormed(p.modules)
    requires p.commands.comparer == OrdinalIgnoreCase && WellFormed(p.commands)
    ensures NewModuleCommandPair(Some(p.modules), Some(p.commands)) == p
  {
  }

  datatype DynamicPermissionBlock = DynamicPermissionBlock(id: nat, allow: ModuleCommandPair, deny: ModuleCommandPair)

  /** The JSON constructor of `DynamicPermissionBlock`. */
  function NewBlock(id: nat, allow: Option<ModuleCommandPair>, deny: Option<ModuleCommandPair>): (r: DynamicPermissionBlock)
    ensures r.id == id
    ensures r.allow == allow.GetOr(EmptyPair()) && r.deny == deny.GetOr(EmptyPair())
  {
    DynamicPermissionBlock(id, if allow.Some? then allow.value else EmptyPair(), if deny.Some? then deny.value else EmptyPair())
  }

  /** `new DynamicPermissionBlock(id)`: nothing allowed, nothing denied. */
  function BlockFor(id: nat): (r: DynamicPermissionBlock)
    ensures r.id == id
    ensures r.allow.modules.elems == [] && r.allow.commands.elems == []
    ensures r.deny.modules.elems == [] && r.deny.commands.elems == []
  {
    NewBlock(id, None, None)
  }

  datatype DynamicPerms = DynamicPerms(rolePerms: seq<DynamicPermissionBlock>, userPerms: seq<DynamicPermissionBlock>)

  /** The JSON constructor of `DynamicPerms`. */
  function NewPerms(roles: Option<seq<DynamicPermissionBlock>>, users: Option<seq<DynamicPermissionBlock>>): (r: DynamicPerms)
    ensures r.rolePerms == roles.GetOr([]) && r.userPerms == users.GetOr([])
  {
    DynamicPerms(if roles.Some? then roles.value else [], if users.Some? then users.value else [])
  }

  /** `new DynamicPerms()`. */
  function EmptyPerms(): (r: DynamicPerms)
    ensures r.rolePerms == [] && r.userPerms == []
  {
    NewPerms(None, None)
  }
}
