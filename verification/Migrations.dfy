/** The schema runner of linux/core/src/db/migrations.rs: scripts beyond `user_version` are applied in order,
    each in its own transaction. */
module Migrations {
  import opened Wrappers

  datatype Object = Feeds | Articles | ArticlesFeedUnreadIndex | ArticlesPublishedIndex | DeletedArticles

  /** A script is the objects its CREATE statements make, in order. */
  type Script = seq<Object>

  const MIGRATIONS: seq<Script> := [
    [Feeds, Articles, ArticlesFeedUnreadIndex, ArticlesPublishedIndex],
    [DeletedArticles]
  ]

  /** Every script creates something, and nothing is created twice. */
  predicate Lawful(scripts: seq<Script>) {
    && (forall i :: 0 <= i < |scripts| ==> scripts[i] != [])
    && (forall i, a, j, b
          | 0 <= i < |scripts| && 0 <= j < |scripts| && 0 <= a < |scripts[i]| && 0 <= b < |scripts[j]| ::
          scripts[i][a] == scripts[j][b] ==> i == j && a == b)
  }

  lemma MigrationsAreLawful()
    ensures Lawful(MIGRATIONS)
  {
    assert |MIGRATIONS| == 2;
  }

  function Made(script: Script): set<Object> {
    set x | x in script
  }

  /** A script fails when it would create what exists, or the same thing twice. */
  predicate Clashes(script: Script, objects: set<Object>) {
    || (exists a :: 0 <= a < |script| && script[a] in objects)
    || (exists a, b :: 0 <= a < b < |script| && script[a] == script[b])
  }

  /** The schema of the first `version` scripts. */
  function Schema(scripts: seq<Script>, version: nat): set<Object>
    requires version <= |scripts|
  {
    if version == 0 then {} else Schema(scripts, version - 1) + Made(scripts[version - 1])
  }

  lemma {:induction false} SchemaHolds(scripts: seq<Script>, version: nat, x: Object)
    requires version <= |scripts|
    ensures x in Schema(scripts, version) <==> exists i :: 0 <= i < version && x in scripts[i]
  {
    if version > 0 {
      SchemaHolds(scripts, version - 1, x);
    }
  }

  /** What the two scripts come to. */
  lemma MigrationsMakeTheSchema()
    ensures |MIGRATIONS| == 2
    ensures Schema(MIGRATIONS, 1) == {Feeds, Articles, ArticlesFeedUnreadIndex, ArticlesPublishedIndex}
    ensures Schema(MIGRATIONS, 2) == Schema(MIGRATIONS, 1) + {DeletedArticles}
  {
    assert Schema(MIGRATIONS, 0) == {};
  }

  /** The script at `i` clashes with the schema of the first `version` scripts exactly if it is one of them. */
  lemma ClashesIffApplied(scripts: seq<Script>, version: nat, i: nat)
    requires Lawful(scripts) && version <= |scripts| && i < |scripts|
    ensures Clashes(scripts[i], Schema(scripts, version)) <==> i < version
  {
    var script := scripts[i];
    if i < version {
      SchemaHolds(scripts, version, script[0]);
    } else {
      forall a | 0 <= a < |script| ensures script[a] !in Schema(scripts, version) {
        SchemaHolds(scripts, version, script[a]);
      }
    }
  }

  // ----- One runner -------------------------------------------------------

  /** The schema part of the database file; `before` is what a rollback returns to. */
  class Database {
    var version: int
    var objects: set<Object>
    var before: Option<(int, set<Object>)>

    method Begin()
      requires before.None?
      modifies this`before
      ensures before == Some((version, objects))
    {
      before := Some((version, objects));
    }

    method Commit()
      requires before.Some?
      modifies this`before
      ensures before.None?
    {
      before := None;
    }

    method Rollback()
      requires before.Some?
      modifies this
      ensures before.None? && (version, objects) == old(before).value
    {
      version, objects := before.value.0, before.value.1;
      before := None;
    }

    /** Executes the CREATE statements one by one and stops at the first that fails. */
    method ExecuteBatch(script: Script) returns (ok: bool)
      modifies this`objects
      ensures ok <==> !Clashes(script, old(objects))
      ensures ok ==> objects == old(objects) + Made(script)
    {
      for i := 0 to |script|
        invariant objects == old(objects) + Made(script[..i])
        invariant !Clashes(script[..i], old(objects))
      {
        if script[i] in objects {
          return false;
        }
        assert script[..i + 1] == script[..i] + [script[i]];
        objects := objects + {script[i]};
      }
      assert script[..|script|] == script;
      ok := true;
    }

    /** `run`: the error is the number of the script that failed. */
    method Run(scripts: seq<Script>) returns (r: Result<(), nat>)
      requires before.None?
      modifies this
      ensures before.None?
      ensures (r, version, objects) == Migrated(scripts, FirstScript(old(version)), old(version), old(objects))
    {
      var current := if version > 0 then version else 0;
      var idx: nat := current;
      while idx < |scripts|
        invariant before.None?
        invariant Migrated(scripts, idx, version, objects) == Migrated(scripts, current, old(version), old(objects))
      {
        Begin();
        var ok := ExecuteBatch(scripts[idx]);
        if !ok {
          Rollback();
          return Err(idx + 1);
        }
        version := idx + 1;
        Commit();
        idx := idx + 1;
      }
      r := Ok(());
    }
  }

  /** What a runner that starts with script `k` ends with. */
  function Migrated(scripts: seq<Script>, k: nat, version: int, objects: set<Object>)
    : (Result<(), nat>, int, set<Object>)
    decreases |scripts| - k
  {
    if k >= |scripts| then (Ok(()), version, objects)
    else if Clashes(scripts[k], objects) then (Err(k + 1), version, objects)
    else Migrated(scripts, k + 1, k + 1, objects + Made(scripts[k]))
  }

  function FirstScript(version: int): nat {
    if version > 0 then version else 0
  }

  /** From the schema of any version a lone runner succeeds and ends with every script's objects. */
  lemma {:induction false} LoneRunnerCompletes(scripts: seq<Script>, version: nat)
    requires Lawful(scripts) && version <= |scripts|
    ensures Migrated(scripts, version, version, Schema(scripts, version)) ==
            (Ok(()), |scripts|, Schema(scripts, |scripts|))
    decreases |scripts| - version
  {
    if version < |scripts| {
      ClashesIffApplied(scripts, version, version);
      LoneRunnerCompletes(scripts, version + 1);
    }
  }

  lemma {:induction false} SuccessReachesTheEnd(scripts: seq<Script>, k: nat, version: int, objects: set<Object>)
    ensures var (r, v, _) := Migrated(scripts, k, version, objects);
            r.Ok? ==> v == if k < |scripts| then |scripts| else version
    decreases |scripts| - k
  {
    if k < |scripts| && !Clashes(scripts[k], objects) {
      SuccessReachesTheEnd(scripts, k + 1, k + 1, objects + Made(scripts[k]));
    }
  }

  /** Whatever the file held, running again after a success changes nothing. */
  lemma SecondRunChangesNothing(scripts: seq<Script>, version: int, objects: set<Object>)
    ensures var (r, v, o) := Migrated(scripts, FirstScript(version), version, objects);
            r.Ok? ==> Migrated(scripts, FirstScript(v), v, o) == (Ok(()), v, o)
  {
    SuccessReachesTheEnd(scripts, FirstScript(version), version, objects);
  }

  // ----- Many runners -----------------------------------------------------

  /** A runner has read the version and comes to script `next`; or it has returned, or its process is gone. */
  datatype Runner = At(next: nat) | Done | Clashed(idx: nat) | Failed | Crashed

  /** Who applied which script. */
  datatype Entry = Entry(runner: nat, idx: nat)

  datatype State = State(version: int, objects: set<Object>, runners: map<nat, Runner>, log: seq<Entry>)

  const EMPTY: State := State(0, {}, map[], [])

  /** One atomic step of runner `r`; a transaction commits as a whole or leaves no trace. */
  datatype Action =
    | Start(r: nat)
    | Apply(r: nat)
    | Finish(r: nat)
    | Fail(r: nat)
    | Crash(r: nat)

  predicate Running(s: State, r: nat) {
    r in s.runners && s.runners[r].At?
  }

  predicate Enabled(scripts: seq<Script>, s: State, a: Action) {
    match a
    case Start(r) => r !in s.runners
    case Apply(r) => Running(s, r) && s.runners[r].next < |scripts|
    case Finish(r) => Running(s, r) && s.runners[r].next >= |scripts|
    case Fail(r) => Running(s, r)
    case Crash(r) => Running(s, r)
  }

  function Next(scripts: seq<Script>, s: State, a: Action): State
    requires Enabled(scripts, s, a)
  {
    match a
    case Start(r) => s.(runners := s.runners[r := At(FirstScript(s.version))])
    case Apply(r) =>
      var i := s.runners[r].next;
      if Clashes(scripts[i], s.objects) then s.(runners := s.runners[r := Clashed(i)])
      else State(i + 1, s.objects + Made(scripts[i]), s.runners[r := At(i + 1)], s.log + [Entry(r, i)])
    case Finish(r) => s.(runners := s.runners[r := Done])
    case Fail(r) => s.(runners := s.runners[r := Failed])
    case Crash(r) => s.(runners := s.runners[r := Crashed])
  }

  /** Each of the first `version` scripts is applied once, in order, and nothing else is. */
  predicate SchemaMatches(scripts: seq<Script>, s: State) {
    && 0 <= s.version <= |scripts|
    && s.objects == Schema(scripts, s.version)
    && |s.log| == s.version
    && forall i :: 0 <= i < |s.log| ==> s.log[i].idx == i
  }

  /** What a runner that stands at, or stopped before, script `i` has applied lies before `i`. */
  predicate OwnBefore(log: seq<Entry>, r: nat, i: nat) {
    forall k :: i <= k < |log| ==> log[k].runner != r
  }

  predicate RunnerFits(scripts: seq<Script>, s: State, r: nat) {
    r in s.runners ==>
    match s.runners[r]
    case At(i) => i <= |s.log| && OwnBefore(s.log, r, i)
    case Done => |s.log| == |scripts|
    case Clashed(i) => i < |s.log| && s.log[i].runner != r
    case Failed => true
    case Crashed => true
  }

  predicate Inv(scripts: seq<Script>, s: State) {
    && SchemaMatches(scripts, s)
    && (forall r :: r in s.runners ==> RunnerFits(scripts, s, r))
    && (forall k :: 0 <= k < |s.log| ==> s.log[k].runner in s.runners)
  }

  lemma ApplyKeepsInv(scripts: seq<Script>, s: State, r: nat)
    requires Lawful(scripts) && Inv(scripts, s) && Enabled(scripts, s, Apply(r))
    ensures Inv(scripts, Next(scripts, s, Apply(r)))
  {
    var i := s.runners[r].next;
    var t := Next(scripts, s, Apply(r));
    assert RunnerFits(scripts, s, r);
    ClashesIffApplied(scripts, s.version, i);
    forall q | q in t.runners ensures RunnerFits(scripts, t, q) {
      assert q != r ==> RunnerFits(scripts, s, q);
    }
  }

  lemma StepKeepsInv(scripts: seq<Script>, s: State, a: Action)
    requires Lawful(scripts) && Inv(scripts, s) && Enabled(scripts, s, a)
    ensures Inv(scripts, Next(scripts, s, a))
  {
    if a.Apply? {
      ApplyKeepsInv(scripts, s, a.r);
    } else {
      var t := Next(scripts, s, a);
      forall q | q in t.runners ensures RunnerFits(scripts, t, q) {
        assert q in s.runners ==> RunnerFits(scripts, s, q);
      }
    }
  }

  predicate Run(scripts: seq<Script>, s: State, actions: seq<Action>)
    decreases |actions|
  {
    actions == [] || (Enabled(scripts, s, actions[0]) && Run(scripts, Next(scripts, s, actions[0]), actions[1..]))
  }

  function After(scripts: seq<Script>, s: State, actions: seq<Action>): State
    requires Run(scripts, s, actions)
    decreases |actions|
  {
    if actions == [] then s else After(scripts, Next(scripts, s, actions[0]), actions[1..])
  }

  lemma {:induction false} RunKeepsInv(scripts: seq<Script>, s: State, actions: seq<Action>)
    requires Lawful(scripts) && Inv(scripts, s) && Run(scripts, s, actions)
    ensures Inv(scripts, After(scripts, s, actions))
    decreases |actions|
  {
    if actions != [] {
      StepKeepsInv(scripts, s, actions[0]);
      RunKeepsInv(scripts, Next(scripts, s, actions[0]), actions[1..]);
    }
  }

  /** After any interleaving of any number of runners, with crashes and other failures anywhere, the schema is
      the first `version` scripts, each applied once; a runner that succeeded leaves all of them; and a runner
      whose script clashed lost it to another runner. */
  lemma SchemaStaysWhole(scripts: seq<Script>, actions: seq<Action>)
    requires Lawful(scripts) && Run(scripts, EMPTY, actions)
    ensures var s := After(scripts, EMPTY, actions);
            && SchemaMatches(scripts, s)
            && (forall r :: r in s.runners && s.runners[r].Done? ==> s.version == |scripts|)
            && (forall r :: r in s.runners && s.runners[r].Clashed? ==>
                  s.runners[r].idx < s.version && s.log[s.runners[r].idx].runner != r)
  {
    RunKeepsInv(scripts, EMPTY, actions);
    var s := After(scripts, EMPTY, actions);
    forall r | r in s.runners ensures RunnerFits(scripts, s, r) {}
  }

  /** Wherever the runners stopped, one more runner on its own completes the schema. */
  lemma AnotherRunnerCompletes(scripts: seq<Script>, actions: seq<Action>)
    requires Lawful(scripts) && Run(scripts, EMPTY, actions)
    ensures var s := After(scripts, EMPTY, actions);
            Migrated(scripts, FirstScript(s.version), s.version, s.objects) ==
            (Ok(()), |scripts|, Schema(scripts, |scripts|))
  {
    RunKeepsInv(scripts, EMPTY, actions);
    LoneRunnerCompletes(scripts, After(scripts, EMPTY, actions).version);
  }

  /** `steps` are steps of runner `r` alone, and lead from `s` to `e`. */
  ghost predicate Alone(scripts: seq<Script>, s: State, r: nat, steps: seq<Action>, e: State) {
    Run(scripts, s, steps) && After(scripts, s, steps) == e && forall i :: 0 <= i < |steps| ==> steps[i].r == r
  }

  lemma AloneFrom(scripts: seq<Script>, s: State, r: nat, a: Action, steps: seq<Action>, e: State)
    requires Enabled(scripts, s, a) && a.r == r && Alone(scripts, Next(scripts, s, a), r, steps, e)
    ensures Alone(scripts, s, r, [a] + steps, e)
  {
    assert ([a] + steps)[1..] == steps;
  }

  /** Runner `r` ended as `run` does: it succeeded, or script `n` failed. */
  predicate EndsAs(e: State, r: nat, outcome: (Result<(), nat>, int, set<Object>)) {
    && e.version == outcome.1 && e.objects == outcome.2 && r in e.runners
    && match outcome.0
       case Ok(_) => e.runners[r] == Done
       case Err(n) => n > 0 && e.runners[r] == Clashed(n - 1)
  }

  lemma {:induction false} GoesOnAlone(scripts: seq<Script>, s: State, r: nat)
    returns (steps: seq<Action>, e: State)
    requires Running(s, r)
    ensures Alone(scripts, s, r, steps, e)
    ensures EndsAs(e, r, Migrated(scripts, s.runners[r].next, s.version, s.objects))
    decreases |scripts| - s.runners[r].next
  {
    var k := s.runners[r].next;
    if k >= |scripts| {
      e := Next(scripts, s, Finish(r));
      AloneFrom(scripts, s, r, Finish(r), [], e);
      steps := [Finish(r)] + [];
    } else {
      var s1 := Next(scripts, s, Apply(r));
      if Clashes(scripts[k], s.objects) {
        e := s1;
        AloneFrom(scripts, s, r, Apply(r), [], e);
        steps := [Apply(r)] + [];
      } else {
        steps, e := GoesOnAlone(scripts, s1, r);
        AloneFrom(scripts, s, r, Apply(r), steps, e);
        steps := [Apply(r)] + steps;
      }
    }
  }

  /** A runner's own steps, with no other runner's in between, do what `run` does, from any state whatever. */
  lemma RunUninterrupted(scripts: seq<Script>, s: State, r: nat) returns (steps: seq<Action>, e: State)
    requires r !in s.runners
    ensures Alone(scripts, s, r, steps, e)
    ensures EndsAs(e, r, Migrated(scripts, FirstScript(s.version), s.version, s.objects))
  {
    steps, e := GoesOnAlone(scripts, Next(scripts, s, Start(r)), r);
    AloneFrom(scripts, s, r, Start(r), steps, e);
    steps := [Start(r)] + steps;
  }

  /** Runners that lose a script do not leave the schema unfinished: when some have started, none is still at
      work and none crashed or failed for another reason, all scripts are applied. */
  lemma LosersLeaveItFinished(scripts: seq<Script>, actions: seq<Action>)
    requires Lawful(scripts) && Run(scripts, EMPTY, actions)
    requires var s := After(scripts, EMPTY, actions);
             && |s.runners| > 0
             && forall r :: r in s.runners ==> s.runners[r].Done? || s.runners[r].Clashed?
    ensures After(scripts, EMPTY, actions).version == |scripts|
    ensures scripts != [] ==>
              exists r :: r in After(scripts, EMPTY, actions).runners && After(scripts, EMPTY, actions).runners[r].Done?
  {
    RunKeepsInv(scripts, EMPTY, actions);
    var s := After(scripts, EMPTY, actions);
    LastWriterWins(scripts, EMPTY, actions);
    var r := if s.log == [] then Any(s.runners.Keys) else s.log[|s.log| - 1].runner;
    assert RunnerFits(scripts, s, r);
  }

  /** The runner that applied the last script cannot have lost a later one. */
  predicate LastWriterIsWhole(s: State) {
    s.log != [] ==>
      var r := s.log[|s.log| - 1].runner;
      r in s.runners && (s.runners[r].At? ==> s.runners[r].next == |s.log|) && !s.runners[r].Clashed?
  }

  lemma {:induction false} LastWriterWins(scripts: seq<Script>, s: State, actions: seq<Action>)
    requires Lawful(scripts) && Inv(scripts, s) && LastWriterIsWhole(s) && Run(scripts, s, actions)
    ensures LastWriterIsWhole(After(scripts, s, actions))
    decreases |actions|
  {
    if actions != [] {
      var a := actions[0];
      if a.Apply? {
        assert RunnerFits(scripts, s, a.r);
        ClashesIffApplied(scripts, s.version, s.runners[a.r].next);
      }
      StepKeepsInv(scripts, s, a);
      LastWriterWins(scripts, Next(scripts, s, a), actions[1..]);
    }
  }

  /** Once complete, no step of any runner touches the schema again. */
  lemma CompleteStaysPut(scripts: seq<Script>, s: State, a: Action)
    requires Lawful(scripts) && Inv(scripts, s) && Enabled(scripts, s, a) && s.version == |scripts|
    ensures var t := Next(scripts, s, a); t.version == s.version && t.objects == s.objects && t.log == s.log
  {
    if a.Apply? {
      ClashesIffApplied(scripts, s.version, s.runners[a.r].next);
    }
  }
}
