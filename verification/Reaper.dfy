/**
 The IAM sweep (infra/aws/account/reaper/handler.py). Profiles and roles form a
 graph the API only lets go of in order; the API methods below demand that
 order of their caller. Any call may fail, with or without having taken
 effect, and the first failure ends the sweep where it is.
 */
module Reaper {
  import opened Wrappers
  import opened Order

  datatype Profile = Profile(arn: string, created: int, tags: map<string, string>, roles: set<string>)

  datatype Role = Role(created: int, tags: map<string, string>, policies: set<string>)

  datatype Account = Account(profiles: map<string, Profile>, roles: map<string, Role>)

  datatype InstanceState = Pending | Running | ShuttingDown | Stopping | Stopped | Terminated

  datatype Instance = Instance(state: InstanceState, profileArn: Option<string>)

  const OWNER_TAG := "ManagedBy"
  const OWNER := "interviews"
  const SEED_TAG := "Interview"
  const ROLE_PREFIX := "iv-"

  /** What a sweep goes by: the profile ARNs instances carry, the time, and the age an orphan must have. */
  datatype Policy = Policy(inUse: set<string>, now: int, age: nat)

  predicate OurName(name: string) {
    ROLE_PREFIX <= name
  }

  /** The tags the interview module writes, both of them. */
  ghost predicate TaggedByUs(tags: map<string, string>) {
    && "ManagedBy" in tags && tags["ManagedBy"] == "interviews"
    && "Interview" in tags && tags["Interview"] != ""
  }

  /** orphaned: every guard has to agree before anything goes. */
  predicate Orphaned(name: string, tags: map<string, string>, created: int, inUse: bool, rule: Policy) {
    if !(ROLE_PREFIX <= name) then false
    else if OWNER_TAG !in tags || tags[OWNER_TAG] != OWNER then false
    else if SEED_TAG !in tags || tags[SEED_TAG] == "" then false
    else if inUse then false
    else if rule.now < created + rule.age then false
    else true
  }

  // ---------------------------------------------------------------- what a sweep should leave

  predicate DoomedProfile(profiles: map<string, Profile>, name: string, rule: Policy) {
    name in profiles
    && var p := profiles[name];
    Orphaned(name, p.tags, p.created, p.arn in rule.inUse, rule)
  }

  function DoomedProfiles(profiles: map<string, Profile>, rule: Policy): set<string> {
    set name | name in profiles && DoomedProfile(profiles, name, rule)
  }

  function Surviving(profiles: map<string, Profile>, rule: Policy): map<string, Profile> {
    profiles - DoomedProfiles(profiles, rule)
  }

  predicate Attached(profiles: map<string, Profile>, role: string) {
    exists name | name in profiles :: role in profiles[name].roles
  }

  predicate DoomedRole(roles: map<string, Role>, held: map<string, Profile>, name: string, rule: Policy) {
    name in roles
    && var r := roles[name];
    Orphaned(name, r.tags, r.created, Attached(held, name), rule)
  }

  /** The roles to go, given the profiles that stay. */
  function DoomedRoles(roles: map<string, Role>, held: map<string, Profile>, rule: Policy): set<string> {
    set name | name in roles && DoomedRole(roles, held, name, rule)
  }

  function Swept(a: Account, rule: Policy): Account {
    var held := Surviving(a.profiles, rule);
    Account(held, a.roles - DoomedRoles(a.roles, held, rule))
  }

  /** Every role a profile holds exists. */
  ghost predicate Valid(a: Account) {
    forall p, r | p in a.profiles && r in a.profiles[p].roles :: r in a.roles
  }

  /** Where a sweep may be when it stops: doomed things gone or stripped, all else as it was, profiles first. */
  ghost predicate Partial(a: Account, rule: Policy, b: Account) {
    var doomed := DoomedProfiles(a.profiles, rule);
    && PartProfiles(a.profiles, doomed, b.profiles)
    && PartRoles(a.roles, DoomedRoles(a.roles, Surviving(a.profiles, rule), rule), b.roles)
    && (b.roles != a.roles ==> doomed !! b.profiles.Keys)
  }

  ghost predicate PartProfiles(a: map<string, Profile>, doomed: set<string>, b: map<string, Profile>) {
    && a.Keys - doomed <= b.Keys <= a.Keys
    && forall n | n in b ::
         if n in doomed then b[n] == a[n].(roles := b[n].roles) && b[n].roles <= a[n].roles
         else b[n] == a[n]
  }

  ghost predicate PartRoles(a: map<string, Role>, doomed: set<string>, b: map<string, Role>) {
    && a.Keys - doomed <= b.Keys <= a.Keys
    && forall n | n in b ::
         if n in doomed then b[n] == a[n].(policies := b[n].policies) && b[n].policies <= a[n].policies
         else b[n] == a[n]
  }

  // ---------------------------------------------------------------- the sweep

  datatype SweepResult = Aborted | Done(deleted: seq<string>)

  /** The ARNs of every instance profile some instance that still exists carries. */
  method ProfilesInUse(instances: seq<Instance>) returns (arns: set<string>)
    ensures forall arn :: arn in arns <==>
      && arn != ""
      && exists i | 0 <= i < |instances| ::
           instances[i].state != Terminated && instances[i].profileArn == Some(arn)
  {
    arns := {};
    for k := 0 to |instances|
      invariant forall arn :: arn in arns <==>
        && arn != ""
        && exists i | 0 <= i < k ::
             instances[i].state != Terminated && instances[i].profileArn == Some(arn)
    {
      var i := instances[k];
      if i.state != Terminated && i.profileArn.Some? && i.profileArn.value != "" {
        arns := arns + {i.profileArn.value};
      }
    }
  }

  class Iam {
    var profiles: map<string, Profile>
    var roles: map<string, Role>
    var failed: bool                 // some call was answered with an error
    var named: set<string>           // every name some call was given

    constructor (a: Account)
      ensures Acct() == a && !failed && named == {}
    {
      profiles, roles, failed, named := a.profiles, a.roles, false, {};
    }

    function Acct(): Account
      reads this
    {
      Account(profiles, roles)
    }

    // ------------------------------------------------------------ the API

    method Call(name: string) returns (ok: bool)
      modifies this`failed, this`named
      ensures named == old(named) + {name}
      ensures failed == (old(failed) || !ok)
    {
      ok := *;
      named := named + {name};
      failed := failed || !ok;
    }

    method List(keys: set<string>) returns (names: seq<string>, ok: bool)
      modifies this`failed
      ensures failed == (old(failed) || !ok)
      ensures ok ==> Elems(names) == keys && |names| == |keys|
    {
      ok := *;
      failed := failed || !ok;
      names := [];
      var rest := keys;
      while rest != {}
        invariant rest <= keys && Elems(names) == keys - rest && |names| == |keys| - |rest|
        decreases rest
      {
        var name :| name in rest;
        rest := rest - {name};
        names := names + [name];
        assert Elems(names) == keys - rest by {
          assert Elems(names) == Elems(names[..|names| - 1]) + {name};
        }
      }
    }

    method RemoveRoleFromProfile(name: string, role: string) returns (ok: bool)
      requires name in profiles && role in profiles[name].roles
      modifies this`profiles, this`failed, this`named
      ensures named == old(named) + {name} && failed == (old(failed) || !ok)
      ensures profiles == Stripped(old(profiles), name, role) || (!ok && profiles == old(profiles))
    {
      ok := Call(name);
      var applied: bool := *;
      if ok || applied {
        profiles := Stripped(profiles, name, role);
      }
    }

    method DeleteProfile(name: string) returns (ok: bool)
      requires name in profiles && profiles[name].roles == {}
      modifies this`profiles, this`failed, this`named
      ensures named == old(named) + {name} && failed == (old(failed) || !ok)
      ensures profiles == old(profiles) - {name} || (!ok && profiles == old(profiles))
    {
      ok := Call(name);
      var applied: bool := *;
      if ok || applied {
        profiles := profiles - {name};
      }
    }

    method DeleteRolePolicy(name: string, policy: string) returns (ok: bool)
      requires name in roles && policy in roles[name].policies
      modifies this`roles, this`failed, this`named
      ensures named == old(named) + {name} && failed == (old(failed) || !ok)
      ensures roles == Unpolicied(old(roles), name, policy) || (!ok && roles == old(roles))
    {
      ok := Call(name);
      var applied: bool := *;
      if ok || applied {
        roles := Unpolicied(roles, name, policy);
      }
    }

    method DeleteRole(name: string) returns (ok: bool)
      requires name in roles && roles[name].policies == {} && !Attached(profiles, name)
      modifies this`roles, this`failed, this`named
      ensures named == old(named) + {name} && failed == (old(failed) || !ok)
      ensures roles == old(roles) - {name} || (!ok && roles == old(roles))
    {
      ok := Call(name);
      var applied: bool := *;
      if ok || applied {
        roles := roles - {name};
      }
    }

    // ------------------------------------------------------------ the passes

    /** Empties one doomed profile of its roles and deletes it. */
    method DropProfile(name: string) returns (ok: bool)
      requires name in profiles
      modifies this`profiles, this`failed, this`named
      ensures named == old(named) + {name} && failed == (old(failed) || !ok)
      ensures ok ==> profiles == old(profiles) - {name}
      ensures PartProfiles(old(profiles), {name}, profiles)
    {
      ghost var before := profiles;
      var rest := profiles[name].roles;
      while rest != {}
        invariant name in profiles && profiles[name].roles == rest
        invariant PartProfiles(before, {name}, profiles)
        invariant named <= old(named) + {name} && old(named) <= named && failed == old(failed)
        decreases rest
      {
        var role :| role in rest;
        ok := RemoveRoleFromProfile(name, role);
        if !ok {
          return;
        }
        rest := rest - {role};
      }
      ok := DeleteProfile(name);
    }

    /** Strips one doomed role of its inline policies and deletes it. */
    method DropRole(name: string) returns (ok: bool)
      requires name in roles && !Attached(profiles, name)
      modifies this`roles, this`failed, this`named
      ensures named == old(named) + {name} && failed == (old(failed) || !ok)
      ensures ok ==> roles == old(roles) - {name}
      ensures PartRoles(old(roles), {name}, roles)
    {
      ghost var before := roles;
      var rest := roles[name].policies;
      while rest != {}
        invariant name in roles && roles[name].policies == rest
        invariant PartRoles(before, {name}, roles)
        invariant named <= old(named) + {name} && old(named) <= named && failed == old(failed)
        decreases rest
      {
        var policy :| policy in rest;
        ok := DeleteRolePolicy(name, policy);
        if !ok {
          return;
        }
        rest := rest - {policy};
      }
      ok := DeleteRole(name);
    }

    /** Reads what one listed profile needs judged, and drops it when it is doomed. */
    method ConsiderProfile(name: string, rule: Policy) returns (gone: bool, ok: bool)
      requires name in profiles
      modifies this`profiles, this`failed, this`named
      ensures failed == (old(failed) || !ok)
      ensures named == old(named) || (OurName(name) && named == old(named) + {name})
      ensures ok ==> gone == DoomedProfile(old(profiles), name, rule)
      ensures ok ==> profiles == if gone then old(profiles) - {name} else old(profiles)
      ensures !ok ==> profiles == old(profiles)
                      || (DoomedProfile(old(profiles), name, rule) && PartProfiles(old(profiles), {name}, profiles))
    {
      gone, ok := false, true;
      var tags: map<string, string> := map[];
      if OurName(name) {
        ok := Call(name);                              // its tags
        if !ok {
          return;
        }
        tags := profiles[name].tags;
      }
      var p := profiles[name];
      if Orphaned(name, tags, p.created, p.arn in rule.inUse, rule) {
        gone := true;
        ok := DropProfile(name);
      }
    }

    /** Every doomed profile goes, in listing order. */
    method SweepProfiles(rule: Policy) returns (deleted: seq<string>, ok: bool)
      modifies this`profiles, this`failed, this`named
      ensures failed == (old(failed) || !ok)
      ensures forall name | name in named :: name in old(named) || OurName(name)
      ensures ok ==> profiles == Surviving(old(profiles), rule)
      ensures ok ==> Elems(deleted) == DoomedProfiles(old(profiles), rule)
                     && |deleted| == |DoomedProfiles(old(profiles), rule)|
      ensures PartProfiles(old(profiles), DoomedProfiles(old(profiles), rule), profiles)
    {
      ghost var before := profiles;
      ghost var doomed := DoomedProfiles(profiles, rule);
      deleted := [];
      var names;
      names, ok := List(profiles.Keys);
      if !ok {
        return;
      }
      for i := 0 to |names|
        invariant deleted == Picked(names, i, doomed) && profiles == before - Elems(deleted)
        invariant failed == old(failed)
        invariant forall name | name in named :: name in old(named) || OurName(name)
      {
        NextName(names, i, doomed);
        DropMore(before, Elems(deleted), names[i]);
        var gone;
        ghost var now := profiles;
        gone, ok := ConsiderProfile(names[i], rule);
        if !ok {
          PartProfileWay(before, doomed, Elems(deleted), names[i], now, profiles);
          return;
        }
        if gone {
          deleted := deleted + [names[i]];
        }
      }
      AllPicked(names, doomed);
      ok := true;
    }

    /** Reads what one listed role needs judged, what holds it included, and drops it when it is doomed. */
    method ConsiderRole(name: string, rule: Policy) returns (gone: bool, ok: bool)
      requires name in roles
      modifies this`roles, this`failed, this`named
      ensures failed == (old(failed) || !ok)
      ensures named == old(named) || (OurName(name) && named == old(named) + {name})
      ensures ok ==> gone == DoomedRole(old(roles), profiles, name, rule)
      ensures ok ==> roles == if gone then old(roles) - {name} else old(roles)
      ensures !ok ==> roles == old(roles)
                      || (DoomedRole(old(roles), profiles, name, rule) && PartRoles(old(roles), {name}, roles))
    {
      gone, ok := false, true;
      var tags: map<string, string>, attached := map[], false;
      if OurName(name) {
        ok := Call(name);                              // its tags
        if !ok {
          return;
        }
        tags := roles[name].tags;
        ok := Call(name);                              // the profiles holding it
        if !ok {
          return;
        }
        attached := Attached(profiles, name);
      }
      if Orphaned(name, tags, roles[name].created, attached, rule) {
        gone := true;
        ok := DropRole(name);
      }
    }

    /** Every doomed role goes, in listing order. */
    method SweepRoles(rule: Policy) returns (deleted: seq<string>, ok: bool)
      modifies this`roles, this`failed, this`named
      ensures failed == (old(failed) || !ok)
      ensures forall name | name in named :: name in old(named) || OurName(name)
      ensures ok ==> roles == old(roles) - DoomedRoles(old(roles), profiles, rule)
      ensures ok ==> Elems(deleted) == DoomedRoles(old(roles), profiles, rule)
                     && |deleted| == |DoomedRoles(old(roles), profiles, rule)|
      ensures PartRoles(old(roles), DoomedRoles(old(roles), profiles, rule), roles)
    {
      ghost var before := roles;
      ghost var doomed := DoomedRoles(roles, profiles, rule);
      deleted := [];
      var names;
      names, ok := List(roles.Keys);
      if !ok {
        return;
      }
      for i := 0 to |names|
        invariant deleted == Picked(names, i, doomed) && roles == before - Elems(deleted)
        invariant failed == old(failed)
        invariant forall name | name in named :: name in old(named) || OurName(name)
      {
        NextName(names, i, doomed);
        DropMore(before, Elems(deleted), names[i]);
        RoleJudged(before, profiles, Elems(deleted), names[i], rule);
        ghost var now := roles;
        var gone;
        gone, ok := ConsiderRole(names[i], rule);
        if !ok {
          PartRoleWay(before, doomed, Elems(deleted), names[i], now, roles);
          return;
        }
        if gone {
          deleted := deleted + [names[i]];
        }
      }
      AllPicked(names, doomed);
      ok := true;
    }

    /** Profiles first, which frees the roles only doomed profiles held. */
    method SweepIam(instances: seq<Instance>, now: int, age: nat) returns (r: SweepResult, ghost rule: Policy)
      modifies this
      ensures rule.now == now && rule.age == age
      ensures forall arn :: arn in rule.inUse <==>
        && arn != ""
        && exists i | 0 <= i < |instances| ::
             instances[i].state != Terminated && instances[i].profileArn == Some(arn)
      ensures r.Aborted? <==> failed
      ensures forall name | name in named :: "iv-" <= name
      ensures Partial(old(Acct()), rule, Acct())
      ensures r.Done? ==>
        var was := old(Acct());
        var ps, rs := DoomedProfiles(was.profiles, rule), DoomedRoles(was.roles, Surviving(was.profiles, rule), rule);
        && Acct() == Swept(was, rule)
        && |r.deleted| == |ps| + |rs|
        && Elems(r.deleted[..|ps|]) == ps && Elems(r.deleted[|ps|..]) == rs
    {
      failed, named := false, {};
      var inUse := ProfilesInUse(instances);
      var policy := Policy(inUse, now, age);
      rule := policy;
      var ps, ok := SweepProfiles(policy);
      if !ok {
        return Aborted, rule;
      }
      var rs;
      rs, ok := SweepRoles(policy);
      if !ok {
        return Aborted, rule;
      }
      assert (ps + rs)[..|ps|] == ps && (ps + rs)[|ps|..] == rs;
      r := Done(ps + rs);
    }
  }

  /** A profile without one of its roles. */
  function Stripped(profiles: map<string, Profile>, name: string, role: string): map<string, Profile>
    requires name in profiles
  {
    profiles[name := profiles[name].(roles := profiles[name].roles - {role})]
  }

  function Unpolicied(roles: map<string, Role>, name: string, policy: string): map<string, Role>
    requires name in roles
  {
    roles[name := roles[name].(policies := roles[name].policies - {policy})]
  }

  /** The doomed among the first i names, in order. */
  function Picked(names: seq<string>, i: nat, doomed: set<string>): seq<string>
    requires i <= |names|
  {
    if i == 0 then []
    else if names[i - 1] in doomed then Picked(names, i - 1, doomed) + [names[i - 1]]
    else Picked(names, i - 1, doomed)
  }

  lemma {:induction false} PickedElems(names: seq<string>, i: nat, doomed: set<string>)
    requires i <= |names|
    ensures Elems(Picked(names, i, doomed)) == Elems(names[..i]) * doomed
  {
    if i > 0 {
      PickedElems(names, i - 1, doomed);
      OneMore(names[..i - 1], names[i - 1]);
      OneMore(Picked(names, i - 1, doomed), names[i - 1]);
      assert names[..i] == names[..i - 1] + [names[i - 1]];
    }
  }

  lemma {:induction false} PickedOnce(names: seq<string>, i: nat, doomed: set<string>)
    requires i <= |names| && |Elems(names)| == |names|
    ensures |Picked(names, i, doomed)| == |Elems(Picked(names, i, doomed))|
  {
    if i > 0 {
      var picked := Picked(names, i - 1, doomed);
      PickedOnce(names, i - 1, doomed);
      PickedElems(names, i - 1, doomed);
      Distinct(names, i - 1);
      assert names[i - 1] !in Elems(picked);
      OneMore(picked, names[i - 1]);
    }
  }

  lemma OneMore(names: seq<string>, name: string)
    ensures Elems(names + [name]) == Elems(names) + {name}
  {
  }

  lemma Distinct(names: seq<string>, i: nat)
    requires i < |names| && |Elems(names)| == |names|
    ensures names[i] !in names[..i]
  {
    if names[i] in names[..i] {
      var rest := names[..i] + names[i + 1..];
      assert Elems(rest) == Elems(names) by {
        assert forall x | x in names :: x == names[i] || x in rest;
      }
      FewElems(rest);
    }
  }

  lemma {:induction false} FewElems(names: seq<string>)
    ensures |Elems(names)| <= |names|
  {
    if names != [] {
      var last := |names| - 1;
      FewElems(names[..last]);
      assert Elems(names) == Elems(names[..last]) + {names[last]};
    }
  }

  /** The next listed name is new, and joins the picked ones when it is doomed. */
  lemma NextName(names: seq<string>, i: nat, doomed: set<string>)
    requires i < |names| && |Elems(names)| == |names|
    ensures var picked := Elems(Picked(names, i, doomed));
            && names[i] !in picked && picked <= doomed
            && Elems(Picked(names, i + 1, doomed)) == if names[i] in doomed then picked + {names[i]} else picked
  {
    PickedElems(names, i, doomed);
    PickedElems(names, i + 1, doomed);
    Distinct(names, i);
    assert names[..i + 1] == names[..i] + [names[i]];
  }

  lemma DropMore<T>(before: map<string, T>, gone: set<string>, name: string)
    ensures before - (gone + {name}) == before - gone - {name}
  {
  }

  lemma AllPicked(names: seq<string>, doomed: set<string>)
    requires |Elems(names)| == |names| && doomed <= Elems(names)
    ensures Elems(Picked(names, |names|, doomed)) == doomed && |Picked(names, |names|, doomed)| == |doomed|
  {
    PickedElems(names, |names|, doomed);
    PickedOnce(names, |names|, doomed);
    assert names[..|names|] == names;
  }

  lemma PartProfileWay(before: map<string, Profile>, doomed: set<string>, deleted: set<string>, name: string,
                       now: map<string, Profile>, after: map<string, Profile>)
    requires deleted <= doomed && now == before - deleted
    requires after == now || (name in doomed && name in now && PartProfiles(now, {name}, after))
    ensures PartProfiles(before, doomed, after)
  {
  }

  lemma PartRoleWay(before: map<string, Role>, doomed: set<string>, deleted: set<string>, name: string,
                       now: map<string, Role>, after: map<string, Role>)
    requires deleted <= doomed && now == before - deleted
    requires after == now || (name in doomed && name in now && PartRoles(now, {name}, after))
    ensures PartRoles(before, doomed, after)
  {
  }

  lemma RoleJudged(before: map<string, Role>, held: map<string, Profile>, deleted: set<string>, name: string,
                   rule: Policy)
    requires name in before && name !in deleted
    ensures DoomedRole(before - deleted, held, name, rule) <==> name in DoomedRoles(before, held, rule)
  {
  }

  // ---------------------------------------------------------------- what sweeping amounts to

  /** A later sweep runs at a later time, with no profile newly in use. */
  predicate Later(rule: Policy, next: Policy) {
    next.now >= rule.now && next.age == rule.age && next.inUse <= rule.inUse
  }

  lemma FewerHoldFewer(fewer: map<string, Profile>, more: map<string, Profile>, role: string)
    requires forall p | p in fewer :: p in more && fewer[p] == more[p]
    ensures Attached(fewer, role) ==> Attached(more, role)
  {
  }

  /** Doom does not lift: what an earlier sweep would take, a later one takes as well. */
  lemma DoomLasts(a: Account, rule: Policy, next: Policy)
    requires Later(rule, next)
    ensures DoomedProfiles(a.profiles, rule) <= DoomedProfiles(a.profiles, next)
    ensures DoomedRoles(a.roles, Surviving(a.profiles, rule), rule)
            <= DoomedRoles(a.roles, Surviving(a.profiles, next), next)
  {
    forall name | name in DoomedRoles(a.roles, Surviving(a.profiles, rule), rule)
      ensures DoomedRole(a.roles, Surviving(a.profiles, next), name, next)
    {
      assert DoomedRole(a.roles, Surviving(a.profiles, rule), name, rule);
      FewerHoldFewer(Surviving(a.profiles, next), Surviving(a.profiles, rule), name);
    }
  }

  /**
   However an earlier sweep ended, done or dead half-way, a complete later
   sweep leaves exactly what it would have left had the earlier one never run.
   */
  lemma EarlierSweepsDoNotMatter(a: Account, rule: Policy, b: Account, next: Policy)
    requires Partial(a, rule, b) && Later(rule, next)
    ensures Swept(b, next) == Swept(a, next)
  {
    DoomLasts(a, rule, next);
    WithinDecides(a, rule, b, next);
  }

  /** Only what the rule dooms is gone or stripped, in whatever order. */
  ghost predicate Within(a: Account, rule: Policy, b: Account) {
    && PartProfiles(a.profiles, DoomedProfiles(a.profiles, rule), b.profiles)
    && PartRoles(a.roles, DoomedRoles(a.roles, Surviving(a.profiles, rule), rule), b.roles)
  }

  /** What one rule doomed of an account, the next still dooms. */
  ghost predicate StaysDoomed(a: Account, rule: Policy, a': Account, next: Policy) {
    && DoomedProfiles(a.profiles, rule) <= DoomedProfiles(a'.profiles, next)
    && DoomedRoles(a.roles, Surviving(a.profiles, rule), rule)
       <= DoomedRoles(a'.roles, Surviving(a'.profiles, next), next)
  }

  lemma WithinDecides(a: Account, rule: Policy, b: Account, next: Policy)
    requires Within(a, rule, b) && StaysDoomed(a, rule, a, next)
    ensures Swept(b, next) == Swept(a, next)
  {
    assert forall n | n in b.profiles :: DoomedProfile(b.profiles, n, next) == DoomedProfile(a.profiles, n, next);
    assert Surviving(b.profiles, next) == Surviving(a.profiles, next);
    var held := Surviving(a.profiles, next);
    assert forall n | n in b.roles :: DoomedRole(b.roles, held, n, next) == DoomedRole(a.roles, held, n, next);
    assert b.roles - DoomedRoles(b.roles, held, next) == a.roles - DoomedRoles(a.roles, held, next);
  }

  lemma SweptIsPartial(a: Account, rule: Policy)
    ensures Partial(a, rule, Swept(a, rule))
  {
  }

  /** A second run finds nothing to delete. */
  lemma SecondSweepDeletesNothing(a: Account, rule: Policy)
    ensures var b := Swept(a, rule);
            && DoomedProfiles(b.profiles, rule) == {}
            && DoomedRoles(b.roles, Surviving(b.profiles, rule), rule) == {}
            && Swept(b, rule) == b
  {
    var b := Swept(a, rule);
    SweptIsPartial(a, rule);
    EarlierSweepsDoNotMatter(a, rule, b, rule);
    assert forall n | n in b.profiles :: DoomedProfile(b.profiles, n, rule) == DoomedProfile(a.profiles, n, rule);
    assert Surviving(b.profiles, rule) == b.profiles;
    assert forall n | n in b.roles ::
        DoomedRole(b.roles, b.profiles, n, rule) == DoomedRole(a.roles, b.profiles, n, rule);
  }

  /** A role goes with its profiles: exactly when it is eligible itself and no profile that stays holds it. */
  lemma RolesGoWithTheirProfiles(a: Account, rule: Policy, name: string)
    requires name in a.roles
    ensures name !in Swept(a, rule).roles <==>
      && "iv-" <= name && TaggedByUs(a.roles[name].tags) && rule.now >= a.roles[name].created + rule.age
      && forall p | p in a.profiles && name in a.profiles[p].roles :: p !in Swept(a, rule).profiles
  {
    var held := Surviving(a.profiles, rule);
    if Attached(held, name) {
      var p :| p in held && name in held[p].roles;
      assert p in a.profiles && name in a.profiles[p].roles && !DoomedProfile(a.profiles, p, rule);
    } else {
      forall p | p in a.profiles && name in a.profiles[p].roles
        ensures DoomedProfile(a.profiles, p, rule)
      {
        assert p in held <==> !DoomedProfile(a.profiles, p, rule);
      }
    }
  }

  /** A profile goes exactly when it is ours, old enough, and no instance carries it; else it keeps its roles. */
  lemma ProfilesThatStayAreUntouched(a: Account, rule: Policy, name: string)
    requires name in a.profiles
    ensures name !in Swept(a, rule).profiles <==>
      && "iv-" <= name && TaggedByUs(a.profiles[name].tags)
      && rule.now >= a.profiles[name].created + rule.age && a.profiles[name].arn !in rule.inUse
    ensures name in Swept(a, rule).profiles ==> Swept(a, rule).profiles[name] == a.profiles[name]
  {
  }

  /** Wherever a sweep stops, no profile is left holding a role that is gone. */
  lemma NoDanglingRoles(a: Account, rule: Policy, b: Account)
    requires Valid(a) && Partial(a, rule, b)
    ensures Valid(b)
  {
    forall p, r | p in b.profiles && r in b.profiles[p].roles
      ensures r in b.roles
    {
      var held := Surviving(a.profiles, rule);
      if b.roles != a.roles {
        assert p in held && r in held[p].roles;
        assert Attached(held, r);
      }
    }
  }

  // ---------------------------------------------------------------- runs of sweeps

  /** An entry is left as it was. */
  ghost predicate Kept<T>(a: map<string, T>, b: map<string, T>, name: string) {
    (name in a <==> name in b) && (name in a ==> a[name] == b[name])
  }

  /** The same outside changes to two accounts: each entry is left alone in both, or ends up the same in both. */
  ghost predicate SameChange<T>(a: map<string, T>, b: map<string, T>, a': map<string, T>, b': map<string, T>) {
    forall name :: (Kept(a, a', name) && Kept(b, b', name)) || Kept(a', b', name)
  }

  /** Nobody else touches what a sweep may be taking away. */
  ghost predicate LeftAlone<T>(a: map<string, T>, a': map<string, T>, doomed: set<string>) {
    forall name | name in doomed :: Kept(a, a', name)
  }

  /** What others do between two sweeps, to the account and to the account as it would be without sweeps. */
  ghost predicate Outside(plain: Account, swept: Account, rule: Policy, plain': Account, swept': Account,
                          next: Policy) {
    && SameChange(plain.profiles, swept.profiles, plain'.profiles, swept'.profiles)
    && SameChange(plain.roles, swept.roles, plain'.roles, swept'.roles)
    && LeftAlone(plain.profiles, plain'.profiles, DoomedProfiles(plain.profiles, rule))
    && LeftAlone(plain.roles, plain'.roles, DoomedRoles(plain.roles, Surviving(plain.profiles, rule), rule))
    && StaysDoomed(plain, rule, plain', next)
    && (Valid(swept) ==> Valid(swept'))
  }

  lemma ProfilesStayWithin(a: map<string, Profile>, doomed: set<string>, b: map<string, Profile>,
                           a': map<string, Profile>, doomed': set<string>, b': map<string, Profile>)
    requires PartProfiles(a, doomed, b) && SameChange(a, b, a', b') && LeftAlone(a, a', doomed)
    requires doomed <= doomed'
    ensures PartProfiles(a', doomed', b')
  {
    forall name
      ensures name in b' ==> name in a'
      ensures name in a' && name !in doomed' ==> name in b'
    {
      assert (Kept(a, a', name) && Kept(b, b', name)) || Kept(a', b', name);
    }
    forall name | name in b'
      ensures if name in doomed' then b'[name] == a'[name].(roles := b'[name].roles) && b'[name].roles <= a'[name].roles
              else b'[name] == a'[name]
    {
      assert (Kept(a, a', name) && Kept(b, b', name)) || Kept(a', b', name);
    }
  }

  lemma RolesStayWithin(a: map<string, Role>, doomed: set<string>, b: map<string, Role>,
                        a': map<string, Role>, doomed': set<string>, b': map<string, Role>)
    requires PartRoles(a, doomed, b) && SameChange(a, b, a', b') && LeftAlone(a, a', doomed)
    requires doomed <= doomed'
    ensures PartRoles(a', doomed', b')
  {
    forall name
      ensures name in b' ==> name in a'
      ensures name in a' && name !in doomed' ==> name in b'
    {
      assert (Kept(a, a', name) && Kept(b, b', name)) || Kept(a', b', name);
    }
    forall name | name in b'
      ensures if name in doomed'
              then b'[name] == a'[name].(policies := b'[name].policies) && b'[name].policies <= a'[name].policies
              else b'[name] == a'[name]
    {
      assert (Kept(a, a', name) && Kept(b, b', name)) || Kept(a', b', name);
    }
  }

  lemma OutsideStaysWithin(plain: Account, rule: Policy, swept: Account, plain': Account, swept': Account, next: Policy)
    requires Within(plain, rule, swept) && Outside(plain, swept, rule, plain', swept', next)
    ensures Within(plain', next, swept')
  {
    ProfilesStayWithin(plain.profiles, DoomedProfiles(plain.profiles, rule), swept.profiles,
                       plain'.profiles, DoomedProfiles(plain'.profiles, next), swept'.profiles);
    RolesStayWithin(plain.roles, DoomedRoles(plain.roles, Surviving(plain.profiles, rule), rule), swept.roles,
                    plain'.roles, DoomedRoles(plain'.roles, Surviving(plain'.profiles, next), next), swept'.roles);
  }

  /** One more sweep under the same rule, however it ends, takes nothing the rule does not doom. */
  lemma SweepStaysWithin(plain: Account, rule: Policy, before: Account, after: Account)
    requires Within(plain, rule, before) && Partial(before, rule, after)
    ensures Within(plain, rule, after)
  {
    var held := Surviving(plain.profiles, rule);
    assert forall n | n in before.profiles ::
        DoomedProfile(before.profiles, n, rule) == DoomedProfile(plain.profiles, n, rule);
    assert Surviving(before.profiles, rule) == held;
    assert forall n | n in before.roles ::
        DoomedRole(before.roles, held, n, rule) == DoomedRole(plain.roles, held, n, rule);
  }

  /**
   A run of the reaper: run[n] is the account when the n-th sweep starts,
   plain[n] what it would be by then had no sweep ever run. Each sweep ends
   however it ends, then others make their changes.
   */
  ghost predicate IsRun(run: seq<Account>, plain: seq<Account>, rules: seq<Policy>) {
    && |run| == |plain| == |rules| && run != [] && run[0] == plain[0]
    && forall n | 0 <= n < |run| - 1 :: SweptThenChanged(run, plain, rules, n)
  }

  ghost predicate SweptThenChanged(run: seq<Account>, plain: seq<Account>, rules: seq<Policy>, n: nat)
    requires n + 1 < |run| == |plain| == |rules|
  {
    exists mid ::
      Partial(run[n], rules[n], mid) && Outside(plain[n], mid, rules[n], plain[n + 1], run[n + 1], rules[n + 1])
  }

  /**
   Over every run, with others adding, changing and removing what no sweep is
   after: a sweep that completes leaves exactly what it would have left had no
   sweep run before it, and no sweep leaves a profile holding a role that is gone.
   */
  lemma {:induction false} OneCompleteSweepDecides(run: seq<Account>, plain: seq<Account>, rules: seq<Policy>, n: nat)
    requires IsRun(run, plain, rules) && n < |run|
    ensures Within(plain[n], rules[n], run[n])
    ensures Swept(run[n], rules[n]) == Swept(plain[n], rules[n])
    ensures Valid(run[0]) ==> Valid(run[n])
  {
    if n > 0 {
      OneCompleteSweepDecides(run, plain, rules, n - 1);
      assert SweptThenChanged(run, plain, rules, n - 1);
      var mid :| Partial(run[n - 1], rules[n - 1], mid)
                 && Outside(plain[n - 1], mid, rules[n - 1], plain[n], run[n], rules[n]);
      SweepStaysWithin(plain[n - 1], rules[n - 1], run[n - 1], mid);
      OutsideStaysWithin(plain[n - 1], rules[n - 1], mid, plain[n], run[n], rules[n]);
      if Valid(run[0]) {
        NoDanglingRoles(run[n - 1], rules[n - 1], mid);
      }
    }
    WithinDecides(plain[n], rules[n], run[n], rules[n]);
  }

  /** With nothing else changing, the rules only have to move forward in time, no profile coming newly into use. */
  lemma QuietOutside(plain: Account, rule: Policy, swept: Account, next: Policy)
    requires Later(rule, next)
    ensures Outside(plain, swept, rule, plain, swept, next)
  {
    DoomLasts(plain, rule, next);
  }
}
