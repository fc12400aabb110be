/** Scopes, the four-level hierarchy of one request, and the normalization that
    every limiter applies to the scopes it is given. */
module LimitScopes {
  import opened Wrappers

  // limitpolicy.MaximumValue: the largest integer exact in Redis Lua.
  const MAXIMUM_VALUE: nat := 9_007_199_254_740_991

  /** An identifier field: absent, a canonical UUID, or anything else. */
  datatype Text = Empty | Uuid(id: nat) | Malformed(id: nat)

  datatype ScopeKind = PlatformKind | TenantKind | ProjectKind | KeyKind | UnknownKind

  datatype Scope = Scope(kind: ScopeKind, tenant: Text, project: Text, key: Text)
  {
    predicate Valid() {
      match kind
      case PlatformKind => tenant.Empty? && project.Empty? && key.Empty?
      case TenantKind => tenant.Uuid? && project.Empty? && key.Empty?
      case ProjectKind => tenant.Uuid? && project.Uuid? && key.Empty?
      case KeyKind => tenant.Uuid? && project.Uuid? && key.Uuid?
      case UnknownKind => false
    }

    function Rank(): nat {
      match kind
      case PlatformKind => 0
      case TenantKind => 1
      case ProjectKind => 2
      case KeyKind => 3
      case UnknownKind => 4
    }

    /** The scope one level up that aggregates this one. */
    function Parent(): Scope
      requires Valid() && kind != PlatformKind
    {
      match kind
      case TenantKind => Scope(PlatformKind, Empty, Empty, Empty)
      case ProjectKind => Scope(TenantKind, tenant, Empty, Empty)
      case _ => Scope(ProjectKind, tenant, project, Empty)
    }
  }

  /** The platform, tenant, project and key of one request. */
  datatype Hierarchy = Hierarchy(tenant: nat, project: nat, key: nat)
  {
    function Level(i: nat): (s: Scope)
      requires i < 4
      ensures s.Valid() && s.Rank() == i
    {
      if i == 0 then Scope(PlatformKind, Empty, Empty, Empty)
      else if i == 1 then Scope(TenantKind, Uuid(tenant), Empty, Empty)
      else if i == 2 then Scope(ProjectKind, Uuid(tenant), Uuid(project), Empty)
      else Scope(KeyKind, Uuid(tenant), Uuid(project), Uuid(key))
    }

    /** Exactly one scope of each rank belongs to a request. */
    predicate Covers(s: Scope) {
      s.Valid() && s.Rank() < 4 && s == Level(s.Rank())
    }
  }

  /** A scope names its tenant, project and key exactly down to its own level. */
  lemma ScopeIsValidIff(s: Scope)
    ensures s.Valid() <==>
              && !s.kind.UnknownKind? && !s.tenant.Malformed? && !s.project.Malformed? && !s.key.Malformed?
              && (s.tenant.Uuid? <==> !s.kind.PlatformKind?)
              && (s.project.Uuid? <==> s.kind.ProjectKind? || s.kind.KeyKind?)
              && (s.key.Uuid? <==> s.kind.KeyKind?)
  {
  }

  /** And those that it names are those of the request. */
  lemma LevelNames(h: Hierarchy, i: nat)
    requires i < 4
    ensures var s := h.Level(i);
            && (s.tenant.Uuid? ==> s.tenant.id == h.tenant) && (s.project.Uuid? ==> s.project.id == h.project)
            && (s.key.Uuid? ==> s.key.id == h.key)
  {
  }

  /** The four scopes of a hierarchy, in any order. */
  ghost predicate Arranges(input: seq<Scope>, h: Hierarchy) {
    |input| == 4 && forall s: Scope :: s in input <==> h.Covers(s)
  }

  function CountSeen(seen: seq<bool>): nat
    requires |seen| == 4
  {
    (if seen[0] then 1 else 0) + (if seen[1] then 1 else 0) + (if seen[2] then 1 else 0) + (if seen[3] then 1 else 0)
  }

  /** normalizeScopes: accepts exactly the arrangements of the four scopes of
      one hierarchy, and returns that hierarchy. */
  method NormalizeScopes(input: seq<Scope>) returns (r: Option<Hierarchy>)
    ensures r.Some? ==> Arranges(input, r.value)
    ensures r.None? ==> forall h: Hierarchy :: !Arranges(input, h)
  {
    if |input| != 4 { return None; }
    hide Arranges, CountSeen, Scope.Rank, Scope.Valid;
    SeenCounts([false, false, false, false], 0);
    var normalized := [input[0], input[0], input[0], input[0]];
    var seen := [false, false, false, false];
    ghost var at := [0, 0, 0, 0];
    var i := 0;
    while i < 4
      invariant 0 <= i <= 4 && |normalized| == |seen| == |at| == 4 && CountSeen(seen) == i
      invariant forall k :: 0 <= k < 4 && seen[k] ==> normalized[k].Valid() && normalized[k].Rank() == k
      invariant forall k :: 0 <= k < 4 && seen[k] ==> 0 <= at[k] < i && input[at[k]] == normalized[k]
      invariant forall j :: 0 <= j < i ==>
                  input[j].Rank() < 4 && seen[input[j].Rank()] && normalized[input[j].Rank()] == input[j]
    {
      var rank := input[i].Rank();
      if !input[i].Valid() || rank >= 4 {
        forall h: Hierarchy ensures !Arranges(input, h) {
          InvalidScope(input, h, i);
        }
        return None;
      }
      if seen[rank] {
        forall h: Hierarchy ensures !Arranges(input, h) {
          RepeatedRank(input, h, at[rank], i);
        }
        return None;
      }
      SeenCounts(seen, rank);
      normalized, seen, at := normalized[rank := input[i]], seen[rank := true], at[rank := i];
      i := i + 1;
    }
    SeenCounts(seen, 0);
    r := FromLevels(input, normalized);
  }

  lemma SeenCounts(seen: seq<bool>, k: nat)
    requires |seen| == 4 && k < 4
    ensures !seen[k] ==> CountSeen(seen[k := true]) == CountSeen(seen) + 1
    ensures CountSeen(seen) == 4 <==> seen[0] && seen[1] && seen[2] && seen[3]
    ensures CountSeen(seen) == 0 <==> !seen[0] && !seen[1] && !seen[2] && !seen[3]
  {
  }

  lemma InvalidScope(input: seq<Scope>, h: Hierarchy, i: nat)
    requires i < |input| && (!input[i].Valid() || input[i].Rank() >= 4)
    ensures !Arranges(input, h)
  {
    assert input[i] in input;
  }

  /** Two scopes of one rank leave some rank out. */
  lemma RepeatedRank(input: seq<Scope>, h: Hierarchy, j: nat, i: nat)
    requires j < i < |input| && input[j].Rank() == input[i].Rank()
    ensures !Arranges(input, h)
  {
    if |input| == 4 {
      var k := MissingRank(input[0].Rank(), input[1].Rank(), input[2].Rank(), input[3].Rank());
      assert h.Covers(h.Level(k)) && h.Level(k) !in input;
    }
  }

  function MissingRank(a: nat, b: nat, c: nat, d: nat): (k: nat)
    ensures a == b || a == c || a == d || b == c || b == d || c == d ==>
              k < 4 && k != a && k != b && k != c && k != d
  {
    if 0 !in {a, b, c, d} then 0 else if 1 !in {a, b, c, d} then 1 else if 2 !in {a, b, c, d} then 2 else 3
  }

  /** The consistency test on scopes that are already in rank order. */
  method FromLevels(ghost input: seq<Scope>, s: seq<Scope>) returns (r: Option<Hierarchy>)
    requires |s| == 4 && |input| == 4
    requires forall i :: 0 <= i < 4 ==> s[i].Valid() && s[i].Rank() == i && s[i] in input
    requires forall x :: x in input ==> x.Rank() < 4 && s[x.Rank()] == x
    ensures r.Some? ==> Arranges(input, r.value)
    ensures r.None? ==> forall h: Hierarchy :: !Arranges(input, h)
  {
    assert s[0].Valid() && s[1].Valid() && s[2].Valid() && s[3].Valid();
    assert s[0].Rank() == 0 && s[1].Rank() == 1 && s[2].Rank() == 2 && s[3].Rank() == 3;
    forall h: Hierarchy
      ensures Arranges(input, h) ==>
                s[1].tenant == s[2].tenant == s[3].tenant && s[2].project == s[3].project
    {
      if Arranges(input, h) {
        assert h.Covers(s[1]) && h.Covers(s[2]) && h.Covers(s[3]);
      }
    }
    if s[1].tenant != s[2].tenant || s[1].tenant != s[3].tenant || s[2].project != s[3].project {
      return None;
    }
    var h := Hierarchy(s[1].tenant.id, s[2].project.id, s[3].key.id);
    forall x: Scope ensures x in input <==> h.Covers(x) {
      if h.Covers(x) {
        assert x == s[x.Rank()];
      }
    }
    r := Some(h);
  }

  /** The result does not depend on the order in which the caller listed scopes. */
  lemma NormalizationIgnoresOrder(input: seq<Scope>, other: seq<Scope>, h: Hierarchy, g: Hierarchy)
    requires multiset(input) == multiset(other) && Arranges(input, h) && Arranges(other, g)
    ensures h == g
  {
    assert h.Covers(h.Level(3));
    assert h.Level(3) in multiset(input);
    assert g.Covers(h.Level(3));
  }
}
