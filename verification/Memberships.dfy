/** Project memberships: the version chain of each person in each project, and role sets as bit masks. */
module Memberships {
  import opened Orders
  import opened Options

  datatype Role =
    ESTIMATOR | PROCUREMENT | TECHNICAL_EXPERT | REVIEWER | APPROVER | METHODOLOGY_OWNER | CATALOG_OWNER | AUDITOR
    | ADMIN | SYSTEM | UNKNOWN(name: string)

  const PROJECT_ROLES :=
    {ESTIMATOR, PROCUREMENT, TECHNICAL_EXPERT, REVIEWER, APPROVER, METHODOLOGY_OWNER, CATALOG_OWNER, AUDITOR, ADMIN}

  predicate IsProjectRole(role: Role) {
    !role.SYSTEM? && !role.UNKNOWN?
  }

  predicate AreProjectRoles(roles: set<Role>) {
    forall role :: role in roles ==> IsProjectRole(role)
  }

  /** The bit of a project role; other names have none. */
  function Bit(role: Role): bv32 {
    match role
    case ESTIMATOR => 1 case PROCUREMENT => 2 case TECHNICAL_EXPERT => 4 case REVIEWER => 8 case APPROVER => 16
    case METHODOLOGY_OWNER => 32 case CATALOG_OWNER => 64 case AUDITOR => 128 case ADMIN => 256
    case _ => 0
  }

  function BitIf(roles: set<Role>, role: Role): bv32 {
    if role in roles then Bit(role) else 0
  }

  /** The insert guard's sum over the nine roles. */
  function MaskSum(roles: set<Role>): bv32 {
    BitIf(roles, ESTIMATOR) + BitIf(roles, PROCUREMENT) + BitIf(roles, TECHNICAL_EXPERT) + BitIf(roles, REVIEWER)
    + BitIf(roles, APPROVER) + BitIf(roles, METHODOLOGY_OWNER) + BitIf(roles, CATALOG_OWNER) + BitIf(roles, AUDITOR)
    + BitIf(roles, ADMIN)
  }

  predicate ValidRoles(roles: seq<Role>) {
    roles != [] && Distinct(roles) && AreProjectRoles(ToSet(roles))
  }

  /** Bits at nine different places add up without carries. */
  lemma SumIsOr(a: bv32, b: bv32, c: bv32, d: bv32, e: bv32, f: bv32, g: bv32, h: bv32, i: bv32)
    requires a & 1 == a && b & 2 == b && c & 4 == c && d & 8 == d && e & 16 == e
    requires f & 32 == f && g & 64 == g && h & 128 == h && i & 256 == i
    ensures a + b + c + d + e + f + g + h + i == a | b | c | d | e | f | g | h | i
  {
  }

  function MaskOr(roles: set<Role>): bv32 {
    BitIf(roles, ESTIMATOR) | BitIf(roles, PROCUREMENT) | BitIf(roles, TECHNICAL_EXPERT) | BitIf(roles, REVIEWER)
    | BitIf(roles, APPROVER) | BitIf(roles, METHODOLOGY_OWNER) | BitIf(roles, CATALOG_OWNER) | BitIf(roles, AUDITOR)
    | BitIf(roles, ADMIN)
  }

  lemma BitsInPlace(roles: set<Role>, role: Role)
    ensures BitIf(roles, role) & Bit(role) == BitIf(roles, role)
  {
  }

  lemma MaskIsOr(roles: set<Role>)
    ensures MaskSum(roles) == MaskOr(roles)
  {
    forall role ensures BitIf(roles, role) & Bit(role) == BitIf(roles, role) {
      BitsInPlace(roles, role);
    }
    hide BitIf;
    SumIsOr(BitIf(roles, ESTIMATOR), BitIf(roles, PROCUREMENT), BitIf(roles, TECHNICAL_EXPERT), BitIf(roles, REVIEWER),
            BitIf(roles, APPROVER), BitIf(roles, METHODOLOGY_OWNER), BitIf(roles, CATALOG_OWNER), BitIf(roles, AUDITOR),
            BitIf(roles, ADMIN));
  }

  /** Each of nine different bits can be read back from their union, and nothing else is in it. */
  lemma OrKeepsBits(a: bv32, b: bv32, c: bv32, d: bv32, e: bv32, f: bv32, g: bv32, h: bv32, i: bv32)
    requires a & 1 == a && b & 2 == b && c & 4 == c && d & 8 == d && e & 16 == e
    requires f & 32 == f && g & 64 == g && h & 128 == h && i & 256 == i
    ensures var m := a | b | c | d | e | f | g | h | i;
            && m & 1 == a && m & 2 == b && m & 4 == c && m & 8 == d && m & 16 == e && m & 32 == f
            && m & 64 == g && m & 128 == h && m & 256 == i && m <= 511
  {
  }

  /** The part of a mask that belongs to one role. */
  function BitAt(mask: bv32, role: Role): bv32 {
    mask & Bit(role)
  }

  lemma MaskBit(roles: set<Role>, role: Role)
    ensures MaskSum(roles) <= 511
    ensures BitAt(MaskSum(roles), role) == BitIf(roles, role)
  {
    MaskIsOr(roles);
    hide MaskSum;
    OrKeepsBits(BitIf(roles, ESTIMATOR), BitIf(roles, PROCUREMENT), BitIf(roles, TECHNICAL_EXPERT),
                BitIf(roles, REVIEWER), BitIf(roles, APPROVER), BitIf(roles, METHODOLOGY_OWNER),
                BitIf(roles, CATALOG_OWNER), BitIf(roles, AUDITOR), BitIf(roles, ADMIN));
  }

  /** A mask is the union of the bits it holds. */
  lemma BitsMakeMask(m: bv32)
    requires m <= 511
    ensures m == (m & 1) | (m & 2) | (m & 4) | (m & 8) | (m & 16) | (m & 32) | (m & 64) | (m & 128) | (m & 256)
  {
  }

  /** Masks are equal when all nine bits are. */
  lemma SameBits(m: bv32, n: bv32)
    requires m <= 511 && n <= 511
    requires forall role | IsProjectRole(role) :: BitAt(m, role) == BitAt(n, role)
    ensures m == n
  {
    BitsMakeMask(m);
    BitsMakeMask(n);
    assert BitAt(m, ESTIMATOR) == BitAt(n, ESTIMATOR) && BitAt(m, PROCUREMENT) == BitAt(n, PROCUREMENT);
    assert BitAt(m, TECHNICAL_EXPERT) == BitAt(n, TECHNICAL_EXPERT) && BitAt(m, REVIEWER) == BitAt(n, REVIEWER);
    assert BitAt(m, APPROVER) == BitAt(n, APPROVER) && BitAt(m, METHODOLOGY_OWNER) == BitAt(n, METHODOLOGY_OWNER);
    assert BitAt(m, CATALOG_OWNER) == BitAt(n, CATALOG_OWNER) && BitAt(m, AUDITOR) == BitAt(n, AUDITOR);
    assert BitAt(m, ADMIN) == BitAt(n, ADMIN);
  }

  lemma BitOfUnion(m: bv32, role: Role, other: Role)
    requires m <= 511
    ensures BitAt(m | Bit(role), other) == if role == other then Bit(role) else BitAt(m, other)
    ensures (m | Bit(role)) <= 511
  {
  }

  /** A role adds its own bit and touches no other. */
  lemma AddRole(roles: set<Role>, role: Role)
    requires IsProjectRole(role)
    ensures MaskSum(roles + {role}) == (MaskSum(roles) | Bit(role))
  {
    hide MaskSum, Bit, BitAt;
    MaskBit(roles, role);
    MaskBit(roles + {role}, role);
    BitOfUnion(MaskSum(roles), role, role);
    forall other | IsProjectRole(other)
      ensures BitAt(MaskSum(roles + {role}), other) == BitAt(MaskSum(roles) | Bit(role), other)
    {
      AddedBit(roles, role, other);
    }
    hide IsProjectRole;
    SameBits(MaskSum(roles + {role}), MaskSum(roles) | Bit(role));
  }

  lemma AddedBit(roles: set<Role>, role: Role, other: Role)
    ensures BitAt(MaskSum(roles + {role}), other) == BitAt(MaskSum(roles) | Bit(role), other)
  {
    hide MaskSum, Bit, BitAt;
    MaskBit(roles, other);
    MaskBit(roles + {role}, other);
    BitOfUnion(MaskSum(roles), role, other);
  }

  lemma BitPositive(role: Role)
    ensures Bit(role) != 0 <==> IsProjectRole(role)
  {
  }

  /** A role is in the set exactly when its bit is in the mask. */
  lemma BitTellsRole(roles: set<Role>, role: Role)
    requires IsProjectRole(role)
    ensures role in roles <==> BitAt(MaskSum(roles), role) != 0
  {
    MaskBit(roles, role);
    hide MaskSum, Bit, BitAt;
    BitPositive(role);
  }

  lemma MaskRange(roles: set<Role>)
    requires AreProjectRoles(roles)
    ensures MaskSum(roles) <= 511 && (MaskSum(roles) != 0 <==> roles != {})
  {
    if roles == {} {
      assert MaskSum({}) == 0;
    } else {
      var role :| role in roles;
      MaskBit(roles, role);
      hide MaskSum;
      BitTellsRole(roles, role);
    }
  }

  /** Two role sets with one mask are the same set. */
  lemma MaskInjective(s: set<Role>, t: set<Role>)
    requires AreProjectRoles(s) && AreProjectRoles(t) && MaskSum(s) == MaskSum(t)
    ensures s == t
  {
    hide MaskSum, BitAt, IsProjectRole;
    forall role: Role ensures role in s <==> role in t {
      if IsProjectRole(role) {
        BitTellsRole(s, role);
        BitTellsRole(t, role);
      }
    }
  }

  function RolesOf(mask: bv32): set<Role> {
    set role | role in PROJECT_ROLES && BitAt(mask, role) != 0
  }

  /** Every mask from 1 to 511 is the mask of a non-empty set of project roles. */
  lemma MaskOnto(mask: bv32)
    requires 0 < mask <= 511
    ensures AreProjectRoles(RolesOf(mask)) && RolesOf(mask) != {} && MaskSum(RolesOf(mask)) == mask
  {
    hide MaskSum, Bit, BitAt, RolesOf;
    var roles := RolesOf(mask);
    MaskBit(roles, ADMIN);
    forall role | IsProjectRole(role) ensures BitAt(MaskSum(roles), role) == BitAt(mask, role) {
      MaskBit(roles, role);
      SingleBit(mask, role);
    }
    hide IsProjectRole;
    SameBits(MaskSum(roles), mask);
    RolesOfAreProjectRoles(mask);
    MaskRange(roles);
  }

  lemma RolesOfAreProjectRoles(mask: bv32)
    ensures AreProjectRoles(RolesOf(mask))
  {
  }

  lemma SingleBit(mask: bv32, role: Role)
    requires IsProjectRole(role)
    ensures BitAt(mask, role) == BitIf(RolesOf(mask), role)
  {
  }

  /** The portfolio's visibility test on masks is the test it stands for: a person sees a project when
      one of their roles is among the roles of their membership. */
  lemma MasksMeetIffRolesMeet(actor: set<Role>, member: set<Role>)
    requires AreProjectRoles(actor) && AreProjectRoles(member)
    ensures MaskSum(member) & MaskSum(actor) != 0 <==> actor * member != {}
  {
    hide MaskSum, Bit, BitAt, IsProjectRole, RolesOf;
    var both := Meet(MaskSum(member), MaskSum(actor));
    MaskBit(actor, ADMIN);
    MaskBit(member, ADMIN);
    MeetRange(MaskSum(member), MaskSum(actor));
    forall role | IsProjectRole(role) ensures BitAt(both, role) == 0 <==> role !in actor * member {
      MeetAtRole(actor, member, role);
    }
    if both != 0 && actor * member == {} {
      forall role | IsProjectRole(role) ensures BitAt(both, role) == BitAt(0, role) {
        NoBit(role);
      }
      SameBits(both, 0);
    }
    if actor * member != {} {
      var role :| role in actor * member;
      NoBit(role);
    }
  }

  function Meet(m: bv32, n: bv32): bv32 {
    m & n
  }

  lemma MeetAtRole(actor: set<Role>, member: set<Role>, role: Role)
    requires IsProjectRole(role)
    ensures BitAt(Meet(MaskSum(member), MaskSum(actor)), role) == 0 <==> role !in actor * member
  {
    hide MaskSum, Bit, BitAt, Meet;
    MaskBit(actor, role);
    MaskBit(member, role);
    BitPositive(role);
    BitOfMeet(MaskSum(member), MaskSum(actor), role);
    MeetOfBits(Bit(role));
  }

  lemma MeetOfBits(b: bv32)
    ensures Meet(b, b) == b && Meet(b, 0) == 0 && Meet(0, b) == 0 && Meet(0, 0) == 0
  {
  }

  lemma NoBit(role: Role)
    ensures BitAt(0, role) == 0
  {
  }

  lemma MeetRange(m: bv32, n: bv32)
    requires m <= 511 && n <= 511
    ensures m & n <= 511
  {
  }

  lemma BitOfMeet(m: bv32, n: bv32, role: Role)
    ensures BitAt(Meet(m, n), role) == Meet(BitAt(m, role), BitAt(n, role))
  {
    hide Bit;
  }

  // ----- the backfill -----

  /** The stored role evidence of a membership; UNKNOWN stands for any entry that is no role name. */
  datatype Evidence = NotAList | Listed(roles: seq<Role>)

  datatype Backfill = Rejected(row: nat) | Masks(masks: seq<bv32>)

  /** The `|=` loop over the roles of one row. */
  method MaskByOr(roles: seq<Role>) returns (mask: bv32)
    requires AreProjectRoles(ToSet(roles))
    ensures mask == MaskSum(ToSet(roles))
  {
    hide MaskSum;
    mask := 0;
    assert ToSet(roles[..0]) == {};
    MaskRange({});
    for i := 0 to |roles|
      invariant mask == MaskSum(ToSet(roles[..i]))
    {
      assert ToSet(roles[..i + 1]) == ToSet(roles[..i]) + {roles[i]};
      assert roles[i] in ToSet(roles);
      AddRole(ToSet(roles[..i]), roles[i]);
      mask := mask | Bit(roles[i]);
    }
    assert roles[..|roles|] == roles;
  }

  predicate ValidEvidence(e: Evidence) {
    e.Listed? && ValidRoles(e.roles)
  }

  /** _validated_backfill: a mask for every row, or the first row whose evidence is not a list of
      distinct project roles. */
  method ValidatedBackfill(rows: seq<Evidence>) returns (result: Backfill)
    ensures result.Masks? <==> forall i :: 0 <= i < |rows| ==> ValidEvidence(rows[i])
    ensures result.Masks? ==> && |result.masks| == |rows|
                              && forall i :: 0 <= i < |rows| ==> result.masks[i] == MaskSum(ToSet(rows[i].roles))
                                                                 && 0 < result.masks[i] <= 511
    ensures result.Rejected? ==> && result.row < |rows| && !ValidEvidence(rows[result.row])
                                 && forall i :: 0 <= i < result.row ==> ValidEvidence(rows[i])
  {
    hide MaskSum;
    var masks: seq<bv32> := [];
    for i := 0 to |rows|
      invariant |masks| == i
      invariant forall j :: 0 <= j < i ==> ValidEvidence(rows[j]) && masks[j] == MaskSum(ToSet(rows[j].roles))
                                           && 0 < masks[j] <= 511
    {
      if !rows[i].Listed? || rows[i].roles == [] || !Distinct(rows[i].roles)
         || exists r :: r in rows[i].roles && !IsProjectRole(r) {
        return Rejected(i);
      }
      var mask := MaskByOr(rows[i].roles);
      assert rows[i].roles[0] in ToSet(rows[i].roles);
      MaskRange(ToSet(rows[i].roles));
      masks := masks + [mask];
    }
    return Masks(masks);
  }

  // ----- the version chain -----

  datatype Membership = Membership(
    id: string, projectId: string, principalId: string, roles: seq<Role>, roleMask: bv32, active: bool, version: int,
    supersedes: Option<string>)

  /** SELECT ... ORDER BY version DESC LIMIT 1 */
  function Latest(rows: seq<Membership>, project: string, principal: string): (r: Option<Membership>)
    ensures r.Some? ==> r.value in rows && r.value.projectId == project && r.value.principalId == principal
  {
    if rows == [] then None
    else
      var n := |rows| - 1;
      var before, last := Latest(rows[..n], project, principal), rows[n];
      if last.projectId != project || last.principalId != principal || (before.Some? && before.value.version >= last.version)
      then before else Some(last)
  }

  /** The rows of one person in one project, in the order they were inserted. */
  function ChainOf(rows: seq<Membership>, project: string, principal: string): seq<Membership> {
    if rows == [] then []
    else
      var n := |rows| - 1;
      ChainOf(rows[..n], project, principal)
      + (if rows[n].projectId == project && rows[n].principalId == principal then [rows[n]] else [])
  }

  /** Versions count 1, 2, 3, ...; a predecessor that is named is the version before; every mask is the
      mask of the row's own roles. */
  predicate IsChain(chain: seq<Membership>) {
    forall i :: 0 <= i < |chain| ==> IsLink(chain, i)
  }

  predicate IsLink(chain: seq<Membership>, i: nat)
    requires i < |chain|
  {
    && chain[i].version == i + 1
    && (chain[i].supersedes.Some? ==> i > 0 && chain[i].supersedes.value == chain[i - 1].id)
    && MaskMatches(chain[i])
  }

  predicate MaskMatches(m: Membership) {
    ValidRoles(m.roles) && m.roleMask == MaskSum(ToSet(m.roles))
  }

  ghost predicate IsHistory(rows: seq<Membership>) {
    forall project, principal :: IsChain(ChainOf(rows, project, principal))
  }

  lemma ChainPrefix(chain: seq<Membership>, n: nat)
    requires IsChain(chain) && n <= |chain|
    ensures IsChain(chain[..n])
  {
    hide MaskMatches;
    forall i | 0 <= i < n ensures IsLink(chain[..n], i) {
      assert IsLink(chain, i);
    }
  }

  lemma {:induction false} LatestEndsChain(rows: seq<Membership>, project: string, principal: string)
    requires IsChain(ChainOf(rows, project, principal))
    ensures var chain := ChainOf(rows, project, principal);
            Latest(rows, project, principal) == if chain == [] then None else Some(chain[|chain| - 1])
  {
    if rows != [] {
      var n := |rows| - 1;
      var chain, front := ChainOf(rows, project, principal), ChainOf(rows[..n], project, principal);
      assert chain[..|front|] == front;
      ChainPrefix(chain, |front|);
      hide MaskMatches;
      assert chain != [] ==> IsLink(chain, |chain| - 1);
      assert front != [] ==> IsLink(front, |front| - 1);
      LatestEndsChain(rows[..n], project, principal);
    }
  }

  class MembershipTable {
    var rows: seq<Membership>

    ghost predicate Valid()
      reads this
    {
      IsHistory(rows)
    }

    constructor ()
      ensures Valid() && rows == []
    {
      rows := [];
    }

    /** What the guard asks of a new row. A predecessor left null passes: `<>` on it is null. */
    predicate Admits(n: Membership)
      reads this
    {
      && MaskMatches(n)
      && var previous := Latest(rows, n.projectId, n.principalId);
      if previous.None? then n.version == 1 && n.supersedes.None?
      else n.version == previous.value.version + 1 && (n.supersedes.Some? ==> n.supersedes.value == previous.value.id)
    }

    /** tenderguard_protect_project_membership_history on insert; updates and deletes always raise. */
    method Insert(n: Membership) returns (accepted: bool)
      requires Valid()
      modifies this
      ensures Valid() && accepted == old(Admits(n))
      ensures rows == (if accepted then old(rows) + [n] else old(rows))
    {
      if |n.roles| == 0 || SYSTEM in n.roles {
        assert SYSTEM in n.roles ==> SYSTEM in ToSet(n.roles);
        return false;
      }
      if (exists r :: r in n.roles && !IsProjectRole(r)) || |n.roles| != |ToSet(n.roles)| {
        assert !ValidRoles(n.roles) by { DistinctCount(n.roles); }
        return false;
      }
      DistinctCount(n.roles);
      if n.roleMask != MaskSum(ToSet(n.roles)) {
        return false;
      }
      var previous := Latest(rows, n.projectId, n.principalId);
      if previous.None? {
        if n.version != 1 || n.supersedes.Some? {
          return false;
        }
      } else if n.version != previous.value.version + 1 || (n.supersedes.Some? && n.supersedes.value != previous.value.id) {
        return false;
      }
      ExtendHistory(rows, n);
      rows := rows + [n];
      return true;
    }
  }

  lemma ExtendChain(chain: seq<Membership>, n: Membership)
    requires IsChain(chain) && n.version == |chain| + 1 && MaskMatches(n)
    requires n.supersedes.Some? ==> chain != [] && n.supersedes.value == chain[|chain| - 1].id
    ensures IsChain(chain + [n])
  {
    hide MaskMatches;
    forall i | 0 <= i <= |chain| ensures IsLink(chain + [n], i) {
      assert i < |chain| ==> IsLink(chain, i);
    }
  }

  lemma ChainOfAppended(rows: seq<Membership>, n: Membership, project: string, principal: string)
    ensures ChainOf(rows + [n], project, principal)
         == ChainOf(rows, project, principal) + if n.projectId == project && n.principalId == principal then [n] else []
  {
    assert (rows + [n])[..|rows|] == rows;
  }

  /** Appending an admitted row extends its own chain by the next version and leaves all others. */
  lemma ExtendHistory(rows: seq<Membership>, n: Membership)
    requires IsHistory(rows) && MaskMatches(n)
    requires var previous := Latest(rows, n.projectId, n.principalId);
             if previous.None? then n.version == 1 && n.supersedes.None?
             else n.version == previous.value.version + 1 && (n.supersedes.Some? ==> n.supersedes.value == previous.value.id)
    ensures IsHistory(rows + [n])
    ensures ChainOf(rows + [n], n.projectId, n.principalId) == ChainOf(rows, n.projectId, n.principalId) + [n]
  {
    var chain := ChainOf(rows, n.projectId, n.principalId);
    assert IsChain(chain + [n]) by {
      hide MaskMatches, Latest, ChainOf;
      assert IsChain(chain);
      LatestEndsChain(rows, n.projectId, n.principalId);
      assert chain != [] ==> IsLink(chain, |chain| - 1);
      ExtendChain(chain, n);
    }
    hide IsChain, MaskMatches, Latest, ChainOf;
    ChainOfAppended(rows, n, n.projectId, n.principalId);
    forall project, principal ensures IsChain(ChainOf(rows + [n], project, principal)) {
      var others := ChainOf(rows, project, principal);
      assert IsChain(others);
      ChainOfAppended(rows, n, project, principal);
      assert others + [] == others;
    }
  }

  lemma {:induction false} PlaceInChain(rows: seq<Membership>, i: nat)
    requires i < |rows|
    ensures var (project, principal) := (rows[i].projectId, rows[i].principalId);
            var chain, k := ChainOf(rows, project, principal), |ChainOf(rows[..i], project, principal)|;
            k < |chain| && chain[k] == rows[i] && chain[..k] == ChainOf(rows[..i], project, principal)
  {
    var n := |rows| - 1;
    if i < n {
      PlaceInChain(rows[..n], i);
      assert rows[..n][..i] == rows[..i];
    }
  }

  /** The places of one person's rows in one project. */
  function PlacesOf(rows: seq<Membership>, project: string, principal: string): set<nat> {
    set k: nat | k < |rows| && rows[k].projectId == project && rows[k].principalId == principal
  }

  lemma {:induction false} ChainCounts(rows: seq<Membership>, project: string, principal: string)
    ensures |ChainOf(rows, project, principal)| == |PlacesOf(rows, project, principal)|
  {
    if rows != [] {
      var n := |rows| - 1;
      ChainCounts(rows[..n], project, principal);
      var places := PlacesOf(rows[..n], project, principal);
      if rows[n].projectId == project && rows[n].principalId == principal {
        assert PlacesOf(rows, project, principal) == places + {n};
      } else {
        assert PlacesOf(rows, project, principal) == places;
      }
    } else {
      assert PlacesOf(rows, project, principal) == {};
    }
  }

  /** The j-th row a person gets in a project has version one more than the number of their rows before
      it: versions are exactly 1 to n in the order of insertion, whatever else was inserted between. */
  lemma VersionCountsRows(rows: seq<Membership>, i: nat)
    requires IsHistory(rows) && i < |rows|
    ensures rows[i].version
         == |set k: nat | k < i && rows[k].projectId == rows[i].projectId && rows[k].principalId == rows[i].principalId| + 1
  {
    VersionCountsChain(rows, i);
    ChainCounts(rows[..i], rows[i].projectId, rows[i].principalId);
    assert PlacesOf(rows[..i], rows[i].projectId, rows[i].principalId)
        == set k: nat | k < i && rows[k].projectId == rows[i].projectId && rows[k].principalId == rows[i].principalId;
  }

  lemma VersionCountsChain(rows: seq<Membership>, i: nat)
    requires IsHistory(rows) && i < |rows|
    ensures rows[i].version == |ChainOf(rows[..i], rows[i].projectId, rows[i].principalId)| + 1
  {
    PlaceInChain(rows, i);
    hide ChainOf, MaskMatches;
    var chain := ChainOf(rows, rows[i].projectId, rows[i].principalId);
    assert IsChain(chain);
    assert IsLink(chain, |ChainOf(rows[..i], rows[i].projectId, rows[i].principalId)|);
  }

  /** No two rows of one person in one project have the same version. */
  lemma VersionsRise(rows: seq<Membership>, i: nat, j: nat)
    requires IsHistory(rows) && i < j < |rows|
    requires rows[i].projectId == rows[j].projectId && rows[i].principalId == rows[j].principalId
    ensures rows[i].version < rows[j].version
  {
    VersionCountsChain(rows, i);
    VersionCountsChain(rows, j);
    PlaceInChain(rows[..j], i);
    assert rows[..j][..i] == rows[..i];
    hide IsHistory, ChainOf;
  }

  /** ORDER BY version DESC LIMIT 1: no row of the person in the project has a higher version. */
  lemma {:induction false} LatestIsHighest(rows: seq<Membership>, project: string, principal: string)
    ensures var latest := Latest(rows, project, principal);
            && (latest.None? <==> forall m :: m in rows ==> m.projectId != project || m.principalId != principal)
            && (latest.Some? ==>
                  && latest.value in rows && latest.value.projectId == project && latest.value.principalId == principal
                  && forall m :: m in rows && m.projectId == project && m.principalId == principal ==>
                       m.version <= latest.value.version)
  {
    if rows != [] {
      var n := |rows| - 1;
      LatestIsHighest(rows[..n], project, principal);
      assert forall m :: m in rows <==> m in rows[..n] || m == rows[n];
    }
  }

  /** The row that is admitted next, told by counting: roles and mask in order, the next version, and if it names a
      predecessor, then the row of the version before. */
  lemma AdmittedNext(table: MembershipTable, n: Membership)
    requires table.Valid()
    ensures var rows := table.rows;
            var count := |PlacesOf(rows, n.projectId, n.principalId)|;
            table.Admits(n) <==>
              && ValidEvidence(Listed(n.roles)) && n.roleMask == MaskSum(ToSet(n.roles)) && n.version == count + 1
              && (n.supersedes.Some? ==>
                    exists m :: m in rows && m.projectId == n.projectId && m.principalId == n.principalId
                                && m.version == count && m.id == n.supersedes.value)
  {
    var rows := table.rows;
    var chain := ChainOf(rows, n.projectId, n.principalId);
    ChainCounts(rows, n.projectId, n.principalId);
    assert IsChain(chain);
    LatestEndsChain(rows, n.projectId, n.principalId);
    LatestIsHighest(rows, n.projectId, n.principalId);
    hide MaskSum, ValidRoles, ChainOf, PlacesOf, Latest;
    if chain != [] {
      assert IsLink(chain, |chain| - 1);
      var last := chain[|chain| - 1];
      forall m | m in rows && m.projectId == n.projectId && m.principalId == n.principalId && m.version == last.version
        ensures m == last
      {
        OneOfVersion(rows, m, last);
      }
    }
  }

  lemma OneOfVersion(rows: seq<Membership>, m: Membership, n: Membership)
    requires IsHistory(rows) && m in rows && n in rows
    requires m.projectId == n.projectId && m.principalId == n.principalId && m.version == n.version
    ensures m == n
  {
    var i: nat, j: nat :| i < |rows| && j < |rows| && rows[i] == m && rows[j] == n;
    if i < j { VersionsRise(rows, i, j); }
    if j < i { VersionsRise(rows, j, i); }
  }

  // ----- the words -----

  /** The nine roles of a project. */
  lemma NineRoles(role: Role)
    ensures IsProjectRole(role) <==> role in {ESTIMATOR, PROCUREMENT, TECHNICAL_EXPERT, REVIEWER, APPROVER, METHODOLOGY_OWNER,
                                              CATALOG_OWNER, AUDITOR, ADMIN}
  {
  }

  /** The bit of each. */
  lemma RolesAndBits()
    ensures MaskSum({ESTIMATOR}) == 1 && MaskSum({PROCUREMENT}) == 2 && MaskSum({TECHNICAL_EXPERT}) == 4
    ensures MaskSum({REVIEWER}) == 8 && MaskSum({APPROVER}) == 16 && MaskSum({METHODOLOGY_OWNER}) == 32
    ensures MaskSum({CATALOG_OWNER}) == 64 && MaskSum({AUDITOR}) == 128 && MaskSum({ADMIN}) == 256
  {
  }

  /** Role evidence is a list that is not empty, repeats nothing and names nothing but the nine roles. */
  lemma EvidenceOutcome(e: Evidence)
    ensures ValidEvidence(e) <==>
              && e.Listed? && e.roles != [] && |ToSet(e.roles)| == |e.roles|
              && forall role :: role in e.roles ==>
                   role in {ESTIMATOR, PROCUREMENT, TECHNICAL_EXPERT, REVIEWER, APPROVER, METHODOLOGY_OWNER, CATALOG_OWNER,
                            AUDITOR, ADMIN}
  {
    if e.Listed? {
      DistinctCount(e.roles);
      forall role ensures role in ToSet(e.roles) <==> role in e.roles {
      }
      forall role: Role { NineRoles(role); }
      hide IsProjectRole;
    }
  }
}
