/** The receive loop of a restore, its result, and carrying on after an interruption. */
module Receiving {
  import opened Prelude
  import opened Order
  import opened Timestamps
  import opened Archives
  import opened Storage
  import opened ChunkReader
  import opened Tools
  import opened Restore
  import Forest

  /** The directory that subvolumes are received into. */
  class ReceiveRoot {
    var subvols: Subvolumes
    constructor () ensures subvols == map[] { subvols := map[]; }
  }

  /** Streams an archive's chunks through the decompressor into the receiver. */
  method RestoreArchive(tools: Programs, dest: Destination, archive: VolumeArchive, root: ReceiveRoot,
                        extra: nat -> nat)
    returns (ok: bool)
    modifies root
    ensures ok <==> Received(tools, dest.objects, archive, old(root.subvols)).Some?
    ensures root.subvols ==
      if ok then Received(tools, dest.objects, archive, old(root.subvols)).value else old(root.subvols)
  {
    var data := ReadArchive(dest, archive, extra);
    if data.Err? { return false; }
    var stream := tools.decompress(data.value);
    if stream.None? { return false; }
    var subvolume := tools.receive(root.subvols, stream.value);
    if subvolume.None? { return false; }
    root.subvols := root.subvols[subvolume.value.0 := subvolume.value.1];
    return true;
  }

  /** The snapshots of the plan that the root does not hold, in plan order. */
  function Todo(steps: seq<RestoreStep>, held: set<string>): seq<string> {
    if |steps| == 0 then []
    else
      var init, last := steps[..|steps| - 1], steps[|steps| - 1].snap.raw;
      Todo(init, held) + (if last in held then [] else [last])
  }

  /** The root with the missing ones of `names` filled in. */
  ghost function Filled(root: Subvolumes, sent: History, names: seq<string>): Subvolumes
    requires forall n :: n in names ==> n in sent
  {
    map n | n in root.Keys + NameSet(names) :: if n in root then root[n] else sent[n].content
  }

  /** The snapshot was sent against exactly what its parent had been sent with. */
  ghost predicate Agrees(f: Forest.Forest, sent: History, n: string) {
    && n in sent && n in f
    && (f[n].Some? ==> f[n].value in sent && sent[n].base == Some(sent[f[n].value].content))
  }

  /** The position, from `i` on, of the first name that does not agree, or the end. */
  ghost function FirstApart(f: Forest.Forest, sent: History, names: seq<string>, i: nat): (r: nat)
    requires i <= |names|
    ensures i <= r <= |names| && (r < |names| ==> !Agrees(f, sent, names[r]))
    ensures forall j :: i <= j < r ==> Agrees(f, sent, names[j])
    decreases |names| - i
  {
    if i == |names| || !Agrees(f, sent, names[i]) then i else FirstApart(f, sent, names, i + 1)
  }

  /** Every archive is stored as it was sent. */
  ghost predicate AllHeld(tools: Programs, objects: Objects, archives: seq<VolumeArchive>, sent: History) {
    && tools.Lawful()
    && WellFormed(archives)
    && forall a :: a in archives ==> Holds(tools, objects, sent, a)
  }

  /** Everything the plan needs is stored as it was sent, and what the root already holds of it is valid. */
  ghost predicate Restorable(tools: Programs, objects: Objects, archives: seq<VolumeArchive>, sent: History,
                             targets: seq<Timestamp>, steps: seq<RestoreStep>, root: Subvolumes) {
    && AllHeld(tools, objects, archives, sent)
    && (forall t :: t in targets ==> t.raw in Names(archives))
    && IsMergedPlan(ForestOf(archives), targets, steps)
    && (forall n :: n in KeySet(steps) && n in root ==> n in sent && root[n] == sent[n].content)
  }

  lemma {:induction false} TodoPrefix(steps: seq<RestoreStep>, i: nat, held: set<string>)
    requires i <= |steps|
    ensures Todo(steps[..i], held) <= Todo(steps, held)
    decreases |steps|
  {
    if i == |steps| {
      assert steps[..i] == steps;
    } else {
      var init := steps[..|steps| - 1];
      TodoPrefix(init, i, held);
      assert init[..i] == steps[..i];
    }
  }

  lemma {:induction false} TodoNames(steps: seq<RestoreStep>, held: set<string>)
    ensures forall n :: n in Todo(steps, held) <==> n in KeySet(steps) && n !in held
    decreases |steps|
  {
    if |steps| > 0 {
      var init := steps[..|steps| - 1];
      TodoNames(init, held);
      assert KeySet(steps) == KeySet(init) + {steps[|steps| - 1].snap.raw};
    }
  }

  /** The receives up to step `i` are the held-back ones of the plan, and the root is filled with them. */
  ghost predicate Progress(steps: seq<RestoreStep>, i: nat, root: Subvolumes, sent: History, received: seq<string>,
                           now: Subvolumes) {
    && i <= |steps|
    && received == Todo(steps[..i], root.Keys)
    && (forall n :: n in received ==> n in sent)
    && now == Filled(root, sent, received)
  }

  /** So far everything received agrees. */
  ghost predicate AgreedSoFar(f: Forest.Forest, sent: History, received: seq<string>) {
    forall j :: 0 <= j < |received| ==> Agrees(f, sent, received[j])
  }

  lemma NoProgress(f: Forest.Forest, steps: seq<RestoreStep>, root: Subvolumes, sent: History)
    ensures Progress(steps, 0, root, sent, [], root) && AgreedSoFar(f, sent, [])
  {
  }

  lemma TodoStep(steps: seq<RestoreStep>, i: nat, held: set<string>)
    requires Ascending(StepKey, steps) && i < |steps|
    ensures var before, name := Todo(steps[..i], held), steps[i].snap.raw;
      && (name in held ==> Todo(steps[..i + 1], held) == before)
      && (name !in held ==> name !in before && Todo(steps[..i + 1], held) == before + [name] <= Todo(steps, held))
  {
    assert steps[..i + 1][..i] == steps[..i];
    TodoPrefix(steps, i + 1, held);
    TodoNames(steps[..i], held);
    LessIsOrder();
    forall s | s in steps[..i] ensures s.snap.raw != steps[i].snap.raw {
      var j :| 0 <= j < i && steps[j] == s;
      assert Less(StepKey(steps[j]), StepKey(steps[i]));
    }
  }

  /** What the archive of step `i` was sent against is in the root by then, with the content it had. */
  lemma ParentHeld(archives: seq<VolumeArchive>, sent: History, targets: seq<Timestamp>, steps: seq<RestoreStep>,
                   root: Subvolumes, i: nat, received: seq<string>, now: Subvolumes)
    requires WellFormed(archives) && IsMergedPlan(ForestOf(archives), targets, steps)
    requires forall t :: t in targets ==> t.raw in Names(archives)
    requires forall n :: n in KeySet(steps) && n in root ==> n in sent && root[n] == sent[n].content
    requires i < |steps| && Progress(steps, i, root, sent, received, now)
    ensures steps[i].snap.raw in Names(archives)
    ensures var a := Find(archives, steps[i].snap.raw).value;
      && a in archives
      && (a.parent.Some? ==>
            && a.parent.value in now && a.parent.value in sent
            && now[a.parent.value] == sent[a.parent.value].content)
  {
    hide Less, Ascending;
    assert steps[i] in steps && FromForest(ForestOf(archives), steps[i]);
    var a := Find(archives, steps[i].snap.raw).value;
    FindUnique(archives, a);
    if a.parent.Some? {
      ParentsFirst(ForestOf(archives), targets, steps, i);
      var j :| 0 <= j < i && steps[j].snap.raw == a.parent.value;
      assert steps[j] in steps[..i] && steps[j] in steps;
      TodoNames(steps[..i], root.Keys);
      assert a.parent.value in KeySet(steps[..i]) && a.parent.value in KeySet(steps);
    }
  }

  lemma ProgressHeld(steps: seq<RestoreStep>, i: nat, root: Subvolumes, sent: History, received: seq<string>,
                     now: Subvolumes)
    requires Ascending(StepKey, steps) && i < |steps| && Progress(steps, i, root, sent, received, now)
    requires steps[i].snap.raw in root
    ensures Progress(steps, i + 1, root, sent, received, now)
  {
    hide Ascending, Filled;
    TodoStep(steps, i, root.Keys);
  }

  lemma FilledOneMore(root: Subvolumes, sent: History, received: seq<string>, name: string)
    requires name in sent && name !in root && forall n :: n in received ==> n in sent
    ensures Filled(root, sent, received)[name := sent[name].content] == Filled(root, sent, received + [name])
  {
    assert NameSet(received + [name]) == NameSet(received) + {name};
  }

  lemma ProgressMore(steps: seq<RestoreStep>, i: nat, root: Subvolumes, sent: History, received: seq<string>,
                     now: Subvolumes)
    requires Ascending(StepKey, steps) && i < |steps| && Progress(steps, i, root, sent, received, now)
    requires steps[i].snap.raw !in root && steps[i].snap.raw in sent
    ensures var name := steps[i].snap.raw;
      && name !in received && received + [name] <= Todo(steps, root.Keys)
      && Progress(steps, i + 1, root, sent, received + [name], now[name := sent[name].content])
  {
    hide Ascending, Filled;
    TodoStep(steps, i, root.Keys);
    FilledOneMore(root, sent, received, steps[i].snap.raw);
  }

  lemma MergedAscends(tools: Programs, objects: Objects, archives: seq<VolumeArchive>, sent: History,
                      targets: seq<Timestamp>, steps: seq<RestoreStep>, root: Subvolumes)
    requires Restorable(tools, objects, archives, sent, targets, steps, root)
    ensures Ascending(StepKey, steps)
  {
  }

  /** An archive whose parent is in the root as sent can be received if it agrees with it. */
  lemma ReceiveNamed(tools: Programs, objects: Objects, archives: seq<VolumeArchive>, sent: History, name: string,
                     now: Subvolumes)
    requires AllHeld(tools, objects, archives, sent) && name in Names(archives)
    requires var p := Find(archives, name).value.parent;
      p.Some? ==> p.value in now && p.value in sent && now[p.value] == sent[p.value].content
    ensures name in sent
    ensures var outcome := Received(tools, objects, Find(archives, name).value, now);
      if Agrees(ForestOf(archives), sent, name) then outcome == Some(now[name := sent[name].content])
      else tools.Discerning() ==> outcome == None
  {
    hide Received, Programs.Lawful, Programs.Discerning, Ascending;
    var a := Find(archives, name).value;
    FindUnique(archives, a);
    assert Holds(tools, objects, sent, a);
    if Agrees(ForestOf(archives), sent, name) {
      ReceiveAdds(tools, objects, a, sent[name], now);
    } else if tools.Discerning() {
      ParentMustAgree(tools, objects, a, sent[name], now);
    }
  }

  /**
   * With everything before step `i` received, the step is held, or it can be received if it agrees with
   * its parent; a receiver that looks at the parent refuses it otherwise.
   */
  lemma NextReceive(tools: Programs, objects: Objects, archives: seq<VolumeArchive>, sent: History,
                    targets: seq<Timestamp>, steps: seq<RestoreStep>, root: Subvolumes, i: nat, received: seq<string>,
                    now: Subvolumes)
    requires Restorable(tools, objects, archives, sent, targets, steps, root) && i < |steps|
    requires Progress(steps, i, root, sent, received, now)
    ensures var name := steps[i].snap.raw;
      && (name in root ==> Progress(steps, i + 1, root, sent, received, now))
      && (name !in root ==>
            && name !in received && name in Names(archives) && name in sent
            && received + [name] <= Todo(steps, root.Keys)
            && Progress(steps, i + 1, root, sent, received + [name], now[name := sent[name].content])
            && var outcome := Received(tools, objects, Find(archives, name).value, now);
              if Agrees(ForestOf(archives), sent, name) then outcome == Some(now[name := sent[name].content])
              else tools.Discerning() ==> outcome == None)
  {
    hide Received, Programs.Lawful, Programs.Discerning, Carries, IsMergedPlan, WellFormed, Ascending, Agrees, Progress,
      Todo, Find, ForestOf, KeySet, Names, Holds, Filled;
    var name := steps[i].snap.raw;
    MergedAscends(tools, objects, archives, sent, targets, steps, root);
    if name in root {
      ProgressHeld(steps, i, root, sent, received, now);
    } else {
      ParentHeld(archives, sent, targets, steps, root, i, received, now);
      ReceiveNamed(tools, objects, archives, sent, name, now);
      ProgressMore(steps, i, root, sent, received, now);
    }
  }

  datatype Outcome = Done | Interrupted | Failed

  /**
   * What is to be received is received in order, up to the first snapshot that does not agree with its
   * parent, which makes the restore fail, and up to `stopAfter`, where it is cut off; it is done when it
   * meets neither. The root holds what was received and what it held before.
   */
  ghost predicate CarriedOut(f: Forest.Forest, steps: seq<RestoreStep>, before: Subvolumes, after: Subvolumes,
                             sent: History, stopAfter: nat, outcome: Outcome)
  {
    var todo := Todo(steps, before.Keys);
    var apart := FirstApart(f, sent, todo, 0);
    && (forall n :: n in todo ==> n in sent)
    && outcome == (if stopAfter <= apart && stopAfter < |todo| then Interrupted
                   else if apart < |todo| then Failed
                   else Done)
    && after == Filled(before, sent, todo[..if stopAfter <= apart then stopAfter else apart])
  }

  /** The receiver looks at the parent, or there is nothing to be found there. */
  ghost predicate Decided(tools: Programs, f: Forest.Forest, sent: History, names: seq<string>) {
    tools.Discerning() || forall n :: n in names ==> Agrees(f, sent, n)
  }

  /** Everything to be received was sent once. */
  lemma TodoSent(tools: Programs, objects: Objects, archives: seq<VolumeArchive>, sent: History,
                 targets: seq<Timestamp>, steps: seq<RestoreStep>, root: Subvolumes)
    requires Restorable(tools, objects, archives, sent, targets, steps, root)
    ensures forall n :: n in Todo(steps, root.Keys) ==> n in sent
  {
    hide Ascending;
    TodoNames(steps, root.Keys);
    forall n | n in Todo(steps, root.Keys) ensures n in sent {
      var s :| s in steps && s.snap.raw == n;
      assert FromForest(ForestOf(archives), s);
      assert Holds(tools, objects, sent, Find(archives, n).value);
    }
  }

  /** Where the first `k` agree, the first that does not comes later. */
  lemma ApartAt(f: Forest.Forest, sent: History, names: seq<string>, k: nat)
    requires k <= |names| && AgreedSoFar(f, sent, names[..k])
    ensures k <= FirstApart(f, sent, names, 0)
    ensures k < |names| && !Agrees(f, sent, names[k]) ==> FirstApart(f, sent, names, 0) == k
  {
    hide Agrees;
    var apart := FirstApart(f, sent, names, 0);
    assert forall j :: 0 <= j < k ==> names[..k][j] == names[j];
  }

  /** Where progress has to stop, or comes to its end. */
  lemma ProgressOutcome(f: Forest.Forest, steps: seq<RestoreStep>, i: nat, root: Subvolumes, sent: History,
                        received: seq<string>, now: Subvolumes, stopAfter: nat, next: Option<string>)
    requires Progress(steps, i, root, sent, received, now) && |received| <= stopAfter && AgreedSoFar(f, sent, received)
    requires forall n :: n in Todo(steps, root.Keys) ==> n in sent
    requires next.Some? ==> received + [next.value] <= Todo(steps, root.Keys)
    ensures i == |steps| ==> CarriedOut(f, steps, root, now, sent, stopAfter, Done)
    ensures next.Some? && |received| == stopAfter ==> CarriedOut(f, steps, root, now, sent, stopAfter, Interrupted)
    ensures next.Some? && |received| < stopAfter && !Agrees(f, sent, next.value) ==>
      CarriedOut(f, steps, root, now, sent, stopAfter, Failed)
  {
    hide Agrees, Todo, Filled, FirstApart, AgreedSoFar;
    var todo := Todo(steps, root.Keys);
    if i == |steps| {
      assert steps[..i] == steps && todo[..|todo|] == todo;
      ApartAt(f, sent, todo, |todo|);
    }
    if next.Some? {
      var k := |received|;
      assert todo[..k] == received && todo[k] == next.value;
      ApartAt(f, sent, todo, k);
    }
  }

  lemma AgreedMore(f: Forest.Forest, sent: History, received: seq<string>, name: string)
    requires AgreedSoFar(f, sent, received) && Agrees(f, sent, name)
    ensures AgreedSoFar(f, sent, received + [name])
  {
  }

  /**
   * Receives the plan into the root, skipping what the root held before. `stopAfter` is the number of
   * receives after which the run is cut off.
   */
  method ReceiveAll(tools: Programs, dest: Destination, archives: seq<VolumeArchive>, steps: seq<RestoreStep>,
                    root: ReceiveRoot, stopAfter: nat, extra: nat -> nat, ghost targets: seq<Timestamp>,
                    ghost sent: History)
    returns (outcome: Outcome)
    requires forall s :: s in steps ==> s.snap.raw in Names(archives)
    modifies root
    ensures (WellFormed(archives) && Restorable(tools, dest.objects, archives, sent, targets, steps, old(root.subvols))
             && Decided(tools, ForestOf(archives), sent, Todo(steps, old(root.subvols).Keys))) ==>
      CarriedOut(ForestOf(archives), steps, old(root.subvols), root.subvols, sent, stopAfter, outcome)
  {
    hide Restorable, Received, CarriedOut, Progress, AgreedSoFar, Agrees, Programs.Discerning, Todo, Find, ForestOf,
      WellFormed;
    ghost var root0, f := root.subvols, ForestOf(archives);
    ghost var good := WellFormed(archives) && Restorable(tools, dest.objects, archives, sent, targets, steps, root0)
      && Decided(tools, f, sent, Todo(steps, root0.Keys));
    var preExisting := root.subvols.Keys;
    var received: seq<string> := [];
    if good {
      TodoSent(tools, dest.objects, archives, sent, targets, steps, root0);
      NoProgress(f, steps, root0, sent);
    }
    for i := 0 to |steps|
      invariant good ==> Progress(steps, i, root0, sent, received, root.subvols) && AgreedSoFar(f, sent, received)
      invariant |received| <= stopAfter
    {
      var name := steps[i].snap.raw;
      if good { NextReceive(tools, dest.objects, archives, sent, targets, steps, root0, i, received, root.subvols); }
      if name in preExisting { continue; }
      if name in received { continue; }
      if good {
        assert (received + [name])[|received|] == name;
        assert name in Todo(steps, root0.Keys);
        ProgressOutcome(f, steps, i, root0, sent, received, root.subvols, stopAfter, Some(name));
      }
      if |received| == stopAfter { return Interrupted; }
      assert steps[i] in steps;
      var archive := Find(archives, name).value;
      var ok := RestoreArchive(tools, dest, archive, root, extra);
      if !ok { return Failed; }
      if good { AgreedMore(f, sent, received, name); }
      received := received + [name];
    }
    if good { ProgressOutcome(f, steps, |steps|, root0, sent, received, root.subvols, stopAfter, None); }
    return Done;
  }

  // ---------------------------------------------------------------- carrying on

  lemma LastDiffers(steps: seq<RestoreStep>)
    requires Ascending(StepKey, steps) && |steps| > 0
    ensures forall s :: s in steps[..|steps| - 1] ==> s.snap.raw != steps[|steps| - 1].snap.raw
  {
    LessIsOrder();
    forall s | s in steps[..|steps| - 1] ensures s.snap.raw != steps[|steps| - 1].snap.raw {
      var j :| 0 <= j < |steps| - 1 && steps[j] == s;
      assert Less(StepKey(steps[j]), StepKey(steps[|steps| - 1]));
    }
  }

  /** The last step comes last on the list, when it is on it. */
  lemma LastTodo(steps: seq<RestoreStep>, held: set<string>)
    requires Ascending(StepKey, steps) && |steps| > 0
    ensures var init, last := steps[..|steps| - 1], steps[|steps| - 1].snap.raw;
      && Todo(steps, held) == Todo(init, held) + (if last in held then [] else [last])
      && Ascending(StepKey, init) && last !in Todo(init, held) && last !in KeySet(init)
      && KeySet(steps) == KeySet(init) + {last}
  {
    LastDiffers(steps);
    TodoNames(steps[..|steps| - 1], held);
  }

  /** With the first `k` on the list held as well, what is left to do is the rest of the list. */
  lemma {:induction false} TodoResumes(steps: seq<RestoreStep>, held: set<string>, k: nat, held': set<string>)
    requires Ascending(StepKey, steps) && k <= |Todo(steps, held)|
    requires forall n :: n in KeySet(steps) ==> (n in held' <==> n in held || n in Todo(steps, held)[..k])
    ensures Todo(steps, held') == Todo(steps, held)[k..]
    decreases |steps|
  {
    hide Ascending;
    if |steps| > 0 {
      LastTodo(steps, held);
      var init, last := steps[..|steps| - 1], steps[|steps| - 1].snap.raw;
      var todo := Todo(init, held);
      if k <= |todo| {
        assert Todo(steps, held)[..k] == todo[..k];
        TodoResumes(init, held, k, held');
      } else {
        assert Todo(steps, held)[..k] == todo + [last] && todo[..|todo|] == todo;
        TodoResumes(init, held, |todo|, held');
      }
    }
  }

  lemma FilledTwice(root: Subvolumes, sent: History, todo: seq<string>, k: nat)
    requires k <= |todo| && forall n :: n in todo ==> n in sent
    ensures Filled(root, sent, todo[..k]).Keys == root.Keys + NameSet(todo[..k])
    ensures Filled(Filled(root, sent, todo[..k]), sent, todo[k..]) == Filled(root, sent, todo)
  {
    assert todo == todo[..k] + todo[k..];
    assert NameSet(todo) == NameSet(todo[..k]) + NameSet(todo[k..]);
  }

  lemma RootResumes(steps: seq<RestoreStep>, root: Subvolumes, sent: History, k: nat)
    requires Ascending(StepKey, steps)
    requires k <= |Todo(steps, root.Keys)| && forall n :: n in Todo(steps, root.Keys) ==> n in sent
    ensures var todo := Todo(steps, root.Keys);
      var first := Filled(root, sent, todo[..k]);
      && Todo(steps, first.Keys) == todo[k..]
      && Filled(first, sent, todo[k..]) == Filled(root, sent, todo)
      && Todo(steps, Filled(root, sent, todo).Keys) == []
  {
    var todo := Todo(steps, root.Keys);
    assert todo[..|todo|] == todo;
    FilledTwice(root, sent, todo, k);
    FilledTwice(root, sent, todo, |todo|);
    TodoResumes(steps, root.Keys, k, Filled(root, sent, todo[..k]).Keys);
    TodoResumes(steps, root.Keys, |todo|, Filled(root, sent, todo).Keys);
  }

  /**
   * A restore cut off after `k` receives leaves a root that can be restored into again; the second
   * restore has exactly the rest to do and ends in the root an uninterrupted one would have left;
   * a third has nothing to do.
   */
  lemma RestoreResumes(tools: Programs, objects: Objects, archives: seq<VolumeArchive>, sent: History,
                       targets: seq<Timestamp>, steps: seq<RestoreStep>, root: Subvolumes, k: nat)
    requires Restorable(tools, objects, archives, sent, targets, steps, root)
    requires k <= |Todo(steps, root.Keys)| && forall n :: n in Todo(steps, root.Keys) ==> n in sent
    ensures var todo := Todo(steps, root.Keys);
      var first := Filled(root, sent, todo[..k]);
      && Restorable(tools, objects, archives, sent, targets, steps, first)
      && Todo(steps, first.Keys) == todo[k..]
      && Filled(first, sent, todo[k..]) == Filled(root, sent, todo)
      && Todo(steps, Filled(root, sent, todo).Keys) == []
  {
    RootResumes(steps, root, sent, k);
    var first := Filled(root, sent, Todo(steps, root.Keys)[..k]);
    assert forall n :: n in KeySet(steps) && n in first ==> first[n] == sent[n].content;
  }

  // ---------------------------------------------------------------- a whole restore

  /** What the root already holds of the needed snapshots is what was sent. */
  ghost predicate RootValid(f: Forest.Forest, targets: seq<Timestamp>, root: Subvolumes, sent: History)
    requires Forest.WellFormed(f)
  {
    forall n :: Needed(f, targets, n) && n in root ==> n in sent && root[n] == sent[n].content
  }

  /** The needed snapshots are there with the content they were sent with; nothing else changed. */
  ghost predicate RestoredTo(f: Forest.Forest, targets: seq<Timestamp>, before: Subvolumes, after: Subvolumes,
                             sent: History)
    requires Forest.WellFormed(f)
  {
    && (forall n :: Needed(f, targets, n) ==> n in sent && n in after && after[n] == sent[n].content)
    && (forall n :: !Needed(f, targets, n) ==>
          (n in after <==> n in before) && (n in after && n in before ==> after[n] == before[n]))
  }

  lemma FilledIsRestored(f: Forest.Forest, targets: seq<Timestamp>, steps: seq<RestoreStep>, root: Subvolumes,
                         sent: History)
    requires Forest.WellFormed(f) && IsMergedPlan(f, targets, steps) && RootValid(f, targets, root, sent)
    requires forall n :: n in Todo(steps, root.Keys) ==> n in sent
    ensures RestoredTo(f, targets, root, Filled(root, sent, Todo(steps, root.Keys)), sent)
  {
    TodoNames(steps, root.Keys);
    forall n | Needed(f, targets, n) ensures n in sent && n in KeySet(steps) { }
  }

  lemma TargetsArchived(archives: seq<VolumeArchive>, snapshots: seq<string>, min: Option<string>, max: Option<string>,
                        targets: seq<Timestamp>)
    requires forall n :: n in snapshots ==> n in Names(archives)
    requires Resolved(archives, snapshots, min, max, targets)
    ensures forall t :: t in targets ==> t.raw in Names(archives)
    ensures forall n :: n in snapshots ==> n in StampSet(targets)
  {
    assert forall t :: t in targets ==> t.raw in StampSet(targets);
  }

  /** Resolves the request and merges the plans of all its targets. */
  method PrepareRestore(archives: seq<VolumeArchive>, snapshots: seq<string>, min: Option<string>, max: Option<string>)
    returns (r: Result<seq<RestoreStep>>, targets: seq<Timestamp>)
    requires WellFormed(archives)
    ensures r.Ok? <==> RequestMet(archives, snapshots, min, max)
    ensures r.Err? ==> r.error.ExecutionError?
    ensures r.Ok? ==>
      && Resolved(archives, snapshots, min, max, targets)
      && (forall n :: n in snapshots ==> n in StampSet(targets))
      && (forall t :: t in targets ==> t.raw in Names(archives))
      && IsMergedPlan(ForestOf(archives), targets, r.value)
  {
    targets := [];
    var resolved := ResolveTargets(archives, snapshots, min, max);
    if resolved.Err? { return Err(resolved.error), []; }
    targets := resolved.value;
    TargetsArchived(archives, snapshots, min, max, targets);
    r := MergePlans(archives, targets);
  }

  lemma PlanArchived(archives: seq<VolumeArchive>, targets: seq<Timestamp>, steps: seq<RestoreStep>)
    requires WellFormed(archives) && IsMergedPlan(ForestOf(archives), targets, steps)
    ensures forall s :: s in steps ==> s.snap.raw in Names(archives)
  {
    assert forall s :: s in steps ==> FromForest(ForestOf(archives), s);
  }

  lemma ValidIsRestorable(tools: Programs, objects: Objects, archives: seq<VolumeArchive>, sent: History,
                          targets: seq<Timestamp>, steps: seq<RestoreStep>, root: Subvolumes)
    requires AllHeld(tools, objects, archives, sent) && RootValid(ForestOf(archives), targets, root, sent)
    requires forall t :: t in targets ==> t.raw in Names(archives)
    requires IsMergedPlan(ForestOf(archives), targets, steps)
    ensures Restorable(tools, objects, archives, sent, targets, steps, root)
  {
  }

  /** What the receive loop did is the restore that was asked for. */
  lemma ReceivedAll(tools: Programs, objects: Objects, archives: seq<VolumeArchive>, sent: History,
                    targets: seq<Timestamp>, steps: seq<RestoreStep>, before: Subvolumes, stopAfter: nat,
                    outcome: Outcome, after: Subvolumes)
    requires WellFormed(archives)
    requires forall t :: t in targets ==> t.raw in Names(archives)
    requires IsMergedPlan(ForestOf(archives), targets, steps)
    requires (Restorable(tools, objects, archives, sent, targets, steps, before)
              && Decided(tools, ForestOf(archives), sent, Todo(steps, before.Keys))) ==>
      CarriedOut(ForestOf(archives), steps, before, after, sent, stopAfter, outcome)
    ensures (AllHeld(tools, objects, archives, sent) && RootValid(ForestOf(archives), targets, before, sent)
             && Decided(tools, ForestOf(archives), sent, Todo(steps, before.Keys))) ==>
      && CarriedOut(ForestOf(archives), steps, before, after, sent, stopAfter, outcome)
      && (outcome.Done? ==> RestoredTo(ForestOf(archives), targets, before, after, sent))
  {
    hide Decided, Agrees, Filled, RestoredTo, Restorable, AllHeld, RootValid, FirstApart, Todo, IsMergedPlan;
    if AllHeld(tools, objects, archives, sent) && RootValid(ForestOf(archives), targets, before, sent)
       && Decided(tools, ForestOf(archives), sent, Todo(steps, before.Keys)) {
      ValidIsRestorable(tools, objects, archives, sent, targets, steps, before);
      var todo := Todo(steps, before.Keys);
      assert todo[..|todo|] == todo;
      if outcome.Done? { FilledIsRestored(ForestOf(archives), targets, steps, before, sent); }
    }
  }

  /**
   * Prepares the plan and receives it. On archives stored as sent and a valid root it fails only at a
   * snapshot that does not agree with its parent, and is cut off only at `stopAfter`; when it is done
   * the root holds exactly what was asked for, as it was sent.
   */
  method RestoreVolume(tools: Programs, dest: Destination, archives: seq<VolumeArchive>,
                       snapshots: seq<string>, min: Option<string>, max: Option<string>,
                       root: ReceiveRoot, stopAfter: nat, extra: nat -> nat, ghost sent: History)
    returns (r: Result<Outcome>, ghost targets: seq<Timestamp>, ghost steps: seq<RestoreStep>)
    requires WellFormed(archives)
    modifies root
    ensures r.Ok? <==> RequestMet(archives, snapshots, min, max)
    ensures r.Err? ==> r.error.ExecutionError? && root.subvols == old(root.subvols)
    ensures r.Ok? ==>
      Resolved(archives, snapshots, min, max, targets) && IsMergedPlan(ForestOf(archives), targets, steps)
    ensures (r.Ok? && AllHeld(tools, dest.objects, archives, sent)
             && RootValid(ForestOf(archives), targets, old(root.subvols), sent)
             && Decided(tools, ForestOf(archives), sent, Todo(steps, old(root.subvols).Keys))) ==>
      && CarriedOut(ForestOf(archives), steps, old(root.subvols), root.subvols, sent, stopAfter, r.value)
      && (r == Ok(Done) ==> RestoredTo(ForestOf(archives), targets, old(root.subvols), root.subvols, sent))
  {
    hide CarriedOut, RestoredTo, AllHeld, RootValid, Decided, RequestMet, Resolved, IsMergedPlan;
    steps := [];
    var plan, resolved := PrepareRestore(archives, snapshots, min, max);
    targets := resolved;
    if plan.Err? { return Err(plan.error), targets, steps; }
    steps := plan.value;
    PlanArchived(archives, targets, steps);
    var outcome := ReceiveAll(tools, dest, archives, plan.value, root, stopAfter, extra, targets, sent);
    ReceivedAll(tools, dest.objects, archives, sent, targets, plan.value, old(root.subvols), stopAfter, outcome,
                root.subvols);
    return Ok(outcome), targets, steps;
  }
}
