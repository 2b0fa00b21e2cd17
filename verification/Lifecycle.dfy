/** The finalizer-guarded life of a CustomRole resource and of the PostgreSQL role it
    stands for (internal/controller/customrole_controller.go, customrole_roles.go).
    Every API call and every host may fail between any two steps, and users act at
    any time; one worker reconciles the resource, reading its current version. */
module Lifecycle {

  /** The resource in the Kubernetes API. Each write gives it a new version. */
  datatype Resource = Missing | Resource(version: nat, finalizer: bool, otherFinalizers: bool, deleting: bool)

  /** Where the worker is within reconcile. Hosts are visited in any order. */
  datatype Worker =
    | Idle
    | AddingFinalizer(seen: nat)
    | Applying(todo: set<string>)
    | Cleaning(seen: nat, todo: set<string>)

  /** roles: the hosts on which the PostgreSQL role exists. stuck: those of them on which it
      cannot be removed, because something depends on it that cleanup does not reach or the
      controller may not act as the owner of a managed function. On one host that is the
      negation of CustomRoleCleanup.Cleanable and TrustedOn together, which no attempt changes. */
  datatype State = State(resource: Resource, lastVersion: nat, roles: set<string>, stuck: set<string>, worker: Worker)

  const START := State(Missing, 0, {}, {}, Idle)

  datatype Event =
    | UserCreates(finalizer: bool, others: bool)
    | UserDeletes
    | OtherWrites(others: bool)  // spec, status, or another controller's finalizers
    | Reads                      // reconcile starts with a read of the resource
    | AddsFinalizer
    | Applies(host: string, created: bool, stuck: bool, ok: bool)  // reconcileOnHost
    | Cleans(host: string, dropped: bool, ok: bool)                // cleanupRoleOnHost
    | OthersTie(host: string, stuck: bool)  // others make or remove what depends on the role
    | RemovesFinalizer
    | Stops                      // all hosts done, an update rejected, a call failed, or a crash

  /** Updates are accepted only for the version that was read. A host that reports
      success has created, or dropped, the role; one that fails may have done so. Only
      a role that exists can be stuck, and a stuck one is not dropped. */
  predicate Enabled(s: State, e: Event) {
    match e
    case UserCreates(_, _) => s.resource == Missing
    case UserDeletes => s.resource.Resource?
    case OtherWrites(others) =>
      s.resource.Resource? && (others && s.resource.deleting ==> s.resource.otherFinalizers)
    case Reads => s.worker == Idle
    case AddsFinalizer => s.worker.AddingFinalizer? && s.resource.Resource? && s.resource.version == s.worker.seen
    case Applies(host, created, stuck, ok) =>
      s.worker.Applying? && host in s.worker.todo && (ok ==> created) && (stuck ==> created || host in s.roles)
    case Cleans(host, dropped, ok) =>
      s.worker.Cleaning? && host in s.worker.todo && (ok ==> dropped) && (dropped ==> host !in s.stuck)
    case OthersTie(host, stuck) => stuck ==> host in s.roles
    case RemovesFinalizer =>
      s.worker.Cleaning? && s.worker.todo == {} && s.resource.Resource? && s.resource.version == s.worker.seen
    case Stops => true
  }

  /** A deleted resource goes with its last finalizer. */
  function Written(r: Resource, version: nat): Resource
    requires r.Resource?
  {
    if r.deleting && !r.finalizer && !r.otherFinalizers then Missing else r.(version := version)
  }

  function After(hosts: set<string>, s: State, e: Event): State
    requires Enabled(s, e)
  {
    var v := s.lastVersion + 1;
    match e
    case UserCreates(finalizer, others) => s.(resource := Resource(v, finalizer, others, false), lastVersion := v)
    case UserDeletes => s.(resource := Written(s.resource.(deleting := true), v), lastVersion := v)
    case OtherWrites(others) => s.(resource := Written(s.resource.(otherFinalizers := others), v), lastVersion := v)
    case Reads => s.(worker :=
      if s.resource == Missing then Idle
      else if s.resource.deleting then (if s.resource.finalizer then Cleaning(s.resource.version, hosts) else Idle)
      else if !s.resource.finalizer then AddingFinalizer(s.resource.version)
      else Applying(hosts))
    case AddsFinalizer =>
      s.(resource := Written(s.resource.(finalizer := true), v), lastVersion := v, worker := Idle)
    case Applies(host, created, stuck, ok) =>
      s.(roles := if created then s.roles + {host} else s.roles,
         stuck := if stuck then s.stuck + {host} else s.stuck - {host},
         worker := if ok then Applying(s.worker.todo - {host}) else Idle)
    case Cleans(host, dropped, ok) =>
      s.(roles := if dropped then s.roles - {host} else s.roles,
         worker := if ok then s.worker.(todo := s.worker.todo - {host}) else Idle)
    case OthersTie(host, stuck) => s.(stuck := if stuck then s.stuck + {host} else s.stuck - {host})
    case RemovesFinalizer =>
      s.(resource := Written(s.resource.(finalizer := false), v), lastVersion := v, worker := Idle)
    case Stops => s.(worker := Idle)
  }

  /** The events can happen in this order, starting with no resource and no role. */
  predicate Possible(hosts: set<string>, events: seq<Event>)
    decreases |events|, 0
  {
    events == [] ||
    (Possible(hosts, events[..|events| - 1]) && Enabled(Run(hosts, events[..|events| - 1]), events[|events| - 1]))
  }

  function Run(hosts: set<string>, events: seq<Event>): State
    requires Possible(hosts, events)
    decreases |events|, 1
  {
    if events == [] then START
    else After(hosts, Run(hosts, events[..|events| - 1]), events[|events| - 1])
  }

  // What every run keeps

  /** While the role exists on some host, the resource exists and carries the finalizer. */
  predicate Guarded(s: State) {
    s.roles != {} ==> s.resource.Resource? && s.resource.finalizer
  }

  ghost predicate Inv(hosts: set<string>, s: State) {
    Guarded(s) && s.stuck <= s.roles <= hosts &&
    match s.worker
    case Idle => true
    case AddingFinalizer(_) => true
    case Applying(todo) => todo <= hosts && s.resource.Resource? && s.resource.finalizer
    case Cleaning(_, todo) =>
      todo <= hosts && s.roles <= todo && s.resource.Resource? && s.resource.finalizer && s.resource.deleting
  }

  /** In every state of every run no role is left without its guarded resource. */
  lemma {:induction false} EveryRunIsGuarded(hosts: set<string>, events: seq<Event>)
    requires Possible(hosts, events)
    ensures Inv(hosts, Run(hosts, events))
    ensures Run(hosts, events).resource == Missing ==> Run(hosts, events).roles == {}
  {
    if events != [] {
      EveryRunIsGuarded(hosts, events[..|events| - 1]);
    }
  }

  /** The finalizer is given up only on deletion and only once no host has the role. */
  lemma FinalizerOutlivesRoles(hosts: set<string>, events: seq<Event>, e: Event)
    requires Possible(hosts, events) && Enabled(Run(hosts, events), e)
    ensures var s, s' := Run(hosts, events), After(hosts, Run(hosts, events), e);
            s.resource.Resource? && s.resource.finalizer && !(s'.resource.Resource? && s'.resource.finalizer) ==>
            e == RemovesFinalizer && s.resource.deleting && s.roles == {}
  {
    EveryRunIsGuarded(hosts, events);
  }

  /** How a resource goes: with a write that leaves it deleted and without any finalizer, and so
      never while another controller's finalizers are there. */
  lemma ResourceGoesIff(hosts: set<string>, events: seq<Event>, e: Event)
    requires Possible(hosts, events) && Run(hosts, events).resource.Resource? && Enabled(Run(hosts, events), e)
    ensures var r := Run(hosts, events).resource;
      After(hosts, Run(hosts, events), e).resource == Missing <==>
        (e == UserDeletes && !r.finalizer && !r.otherFinalizers) ||
        (e == OtherWrites(false) && r.deleting && !r.finalizer) ||
        (e == RemovesFinalizer && r.deleting && !r.otherFinalizers)
  {
    EveryRunIsGuarded(hosts, events);
  }

  lemma OneMore(hosts: set<string>, events: seq<Event>, e: Event)
    requires Possible(hosts, events) && Enabled(Run(hosts, events), e)
    ensures Possible(hosts, events + [e]) && Run(hosts, events + [e]) == After(hosts, Run(hosts, events), e)
  {
  }

  /** A resource that is not being deleted can still get its role on every host, whatever
      happened before. */
  lemma RolesCanBeApplied(hosts: set<string>, events: seq<Event>) returns (more: seq<Event>)
    requires Possible(hosts, events)
    requires var r := Run(hosts, events).resource; r.Resource? && !r.deleting
    ensures Possible(hosts, events + more) && Run(hosts, events + more).roles == hosts
    ensures Kept(Run(hosts, events).resource, Run(hosts, events + more).resource)
    ensures Applied(more)
  {
    hide Run, Possible;
    var read := ApplyingCanStart(hosts, events);
    EveryRunIsGuarded(hosts, events + read);
    var rest := ApplyingCanFinish(hosts, events + read, hosts);
    more := read + rest;
    assert events + read + rest == events + more;
  }

  /** The resource has the finalizer, and otherwise only a newer version. */
  predicate Kept(r: Resource, r': Resource)
    requires r.Resource?
  {
    r'.Resource? && r'.finalizer && r'.deleting == r.deleting && r'.otherFinalizers == r.otherFinalizers
  }

  /** What the worker does to apply a spec. */
  predicate Applied(events: seq<Event>) {
    forall e :: e in events ==> e.Reads? || e.AddsFinalizer? || e.Applies? || e.Stops?
  }

  lemma ApplyingCanStart(hosts: set<string>, events: seq<Event>) returns (more: seq<Event>)
    requires Possible(hosts, events)
    requires var r := Run(hosts, events).resource; r.Resource? && !r.deleting
    ensures Applied(more) && Possible(hosts, events + more)
    ensures Run(hosts, events + more).worker == Applying(hosts)
    ensures Kept(Run(hosts, events).resource, Run(hosts, events + more).resource)
  {
    hide Run, Possible;
    OneMore(hosts, events, Stops);
    OneMore(hosts, events + [Stops], Reads);
    more := [Stops] + [Reads];
    assert events + [Stops] + [Reads] == events + more;
    if !Run(hosts, events).resource.finalizer {
      OneMore(hosts, events + more, AddsFinalizer);
      OneMore(hosts, events + more + [AddsFinalizer], Reads);
      assert events + more + [AddsFinalizer] + [Reads] == events + (more + [AddsFinalizer] + [Reads]);
      more := more + [AddsFinalizer] + [Reads];
    }
  }

  lemma {:induction false} ApplyingCanFinish(hosts: set<string>, events: seq<Event>, todo: set<string>)
    returns (more: seq<Event>)
    requires Possible(hosts, events) && Run(hosts, events).worker == Applying(todo)
    requires Run(hosts, events).roles + todo == hosts
    ensures Possible(hosts, events + more) && Run(hosts, events + more).roles == hosts
    ensures Run(hosts, events + more).resource == Run(hosts, events).resource
    ensures forall e :: e in more ==> e.Applies?
    decreases todo
  {
    hide Run, Possible;
    if todo == {} {
      more := [];
      assert events + more == events;
    } else {
      var host :| host in todo;
      var e := Applies(host, true, false, true);
      OneMore(hosts, events, e);
      var rest := ApplyingCanFinish(hosts, events + [e], todo - {host});
      more := [e] + rest;
      assert events + [e] + rest == events + more;
    }
  }

  /** What the worker does to clean up: attempts that may stop anywhere and start anew. */
  predicate Attempts(events: seq<Event>) {
    forall e :: e in events ==> e.Reads? || e.Cleans? || e.RemovesFinalizer? || e.Stops?
  }

  /** A resource that is being deleted, held only by this controller's finalizer. */
  predicate Deleting(s: State) {
    s.resource.Resource? && s.resource.deleting && s.resource.finalizer && !s.resource.otherFinalizers
  }

  /** However many attempts failed half way: as long as no host is stuck, cleanup can be taken
      up again and finish. */
  lemma CleanupCanFinish(hosts: set<string>, events: seq<Event>) returns (more: seq<Event>)
    requires Possible(hosts, events) && Deleting(Run(hosts, events)) && Run(hosts, events).stuck == {}
    ensures Attempts(more) && Possible(hosts, events + more)
    ensures Run(hosts, events + more).resource == Missing && Run(hosts, events + more).roles == {}
  {
    OneMore(hosts, events, Stops);
    OneMore(hosts, events + [Stops], Reads);
    var start := events + [Stops] + [Reads];
    var rest := CleaningCanFinish(hosts, start);
    more := [Stops, Reads] + rest;
    assert start + rest == events + more;
  }

  lemma {:induction false} CleaningCanFinish(hosts: set<string>, events: seq<Event>) returns (more: seq<Event>)
    requires Possible(hosts, events)
    requires var s := Run(hosts, events);
             Deleting(s) && s.worker.Cleaning? && s.worker.seen == s.resource.version && s.stuck == {}
    ensures Attempts(more) && Possible(hosts, events + more)
    ensures Run(hosts, events + more).resource == Missing && Run(hosts, events + more).roles == {}
    decreases Run(hosts, events).worker.todo
  {
    var s := Run(hosts, events);
    if s.worker.todo == {} {
      more := [RemovesFinalizer];
      OneMore(hosts, events, RemovesFinalizer);
      EveryRunIsGuarded(hosts, events + more);
    } else {
      var host :| host in s.worker.todo;
      var e := Cleans(host, true, true);
      OneMore(hosts, events, e);
      var rest := CleaningCanFinish(hosts, events + [e]);
      more := [e] + rest;
      assert events + [e] + rest == events + more;
    }
  }

  /** While some host is stuck no attempt ends the life of the resource. */
  lemma {:induction false} StuckStays(hosts: set<string>, events: seq<Event>, more: seq<Event>)
    requires Possible(hosts, events + more) && Possible(hosts, events) && Attempts(more)
    ensures Run(hosts, events + more).stuck == Run(hosts, events).stuck
    ensures Run(hosts, events).stuck != {} ==>
      Run(hosts, events + more).resource.Resource? && Run(hosts, events + more).resource.finalizer
  {
    EveryRunIsGuarded(hosts, events + more);
    if more == [] {
      assert events + more == events;
    } else {
      var n := |more| - 1;
      assert (events + more)[..|events| + n] == events + more[..n];
      StuckStays(hosts, events, more[..n]);
      assert more[n] in more;
    }
  }

  /** So the resource can go, by attempts of the controller alone, if and only if no host is stuck. */
  lemma CleanupCanFinishIff(hosts: set<string>, events: seq<Event>)
    requires Possible(hosts, events) && Deleting(Run(hosts, events))
    ensures (exists more :: Attempts(more) && Possible(hosts, events + more) &&
                            Run(hosts, events + more).resource == Missing) <==>
            Run(hosts, events).stuck == {}
  {
    if Run(hosts, events).stuck == {} {
      var more := CleanupCanFinish(hosts, events);
    } else {
      forall more | Attempts(more) && Possible(hosts, events + more)
        ensures Run(hosts, events + more).resource != Missing
      {
        StuckStays(hosts, events, more);
      }
    }
  }

  /** There is such a run: a reconciliation that leaves the role stuck, as a grant in a
      template database does, and then a deletion that no attempt can complete. */
  lemma DeletionCanHang(host: string) returns (events: seq<Event>)
    ensures Possible({host}, events) && Deleting(Run({host}, events)) && Run({host}, events).stuck == {host}
    ensures forall more :: Attempts(more) && Possible({host}, events + more) ==>
      Run({host}, events + more).resource.Resource?
  {
    var hosts := {host};
    events := [];
    OneMore(hosts, events, UserCreates(false, false));
    events := events + [UserCreates(false, false)];
    OneMore(hosts, events, Reads);
    events := events + [Reads];
    OneMore(hosts, events, AddsFinalizer);
    events := events + [AddsFinalizer];
    OneMore(hosts, events, Reads);
    events := events + [Reads];
    OneMore(hosts, events, Applies(host, true, true, true));
    events := events + [Applies(host, true, true, true)];
    OneMore(hosts, events, UserDeletes);
    events := events + [UserDeletes];
    forall more | Attempts(more) && Possible(hosts, events + more)
      ensures Run(hosts, events + more).resource.Resource?
    {
      StuckStays({host}, events, more);
    }
  }
}
