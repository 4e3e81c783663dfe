/**
 * Optimistic mail actions and their undo (crates/app/src/action_resolve.rs, with the inverse operations and the
 * rollback of crates/app/src/handlers/commands.rs).
 *
 * A toggle action flips a flag of each selected thread in the list and records the value it had; undo groups the record
 * by (account, previous value) and sets the flags back.
 */
module ActionResolve {
  import opened Wrappers

  // ---------------------------------------------------------------- threads

  datatype ToggleField = Star | Read | Pin | Mute

  datatype Thread = Thread(account: string, id: string, starred: bool, read: bool, pinned: bool, muted: bool) {
    predicate Is(target: Target) {
      account == target.account && id == target.thread
    }
  }

  datatype Target = Target(account: string, thread: string)

  function ReadField(field: ToggleField, t: Thread): (r: bool) {
    match field
    case Star => t.starred
    case Read => t.read
    case Pin => t.pinned
    case Mute => t.muted
  }

  function WriteField(field: ToggleField, t: Thread, value: bool): (r: Thread) {
    match field
    case Star => t.(starred := value)
    case Read => t.(read := value)
    case Pin => t.(pinned := value)
    case Mute => t.(muted := value)
  }

  /** The first thread of the list with this account and id. */
  function Find(threads: seq<Thread>, target: Target): (r: Option<nat>)
    ensures r.Some? ==> r.value < |threads| && threads[r.value].Is(target)
    ensures r.Some? ==> forall i :: 0 <= i < r.value ==> !threads[i].Is(target)
    ensures r == None ==> forall i :: 0 <= i < |threads| ==> !threads[i].Is(target)
  {
    FindFrom(threads, target, 0)
  }

  function FindFrom(threads: seq<Thread>, target: Target, from: nat): (r: Option<nat>)
    requires from <= |threads| && forall i :: 0 <= i < from ==> !threads[i].Is(target)
    ensures r.Some? ==> r.value < |threads| && threads[r.value].Is(target)
    ensures r.Some? ==> forall i :: 0 <= i < r.value ==> !threads[i].Is(target)
    ensures r == None ==> forall i :: 0 <= i < |threads| ==> !threads[i].Is(target)
    decreases |threads| - from
  {
    if from == |threads| then None
    else if threads[from].Is(target) then Some(from)
    else FindFrom(threads, target, from + 1)
  }

  // ---------------------------------------------------------------- writes

  datatype Write = Write(target: Target, value: bool)

  /** Set the field of the first matching thread; a thread that is gone is skipped. */
  function Wrote(field: ToggleField, threads: seq<Thread>, w: Write): (r: seq<Thread>) {
    match Find(threads, w.target)
    case None => threads
    case Some(i) => threads[i := WriteField(field, threads[i], w.value)]
  }

  function WroteAll(field: ToggleField, threads: seq<Thread>, writes: seq<Write>): (r: seq<Thread>) {
    if writes == [] then threads
    else Wrote(field, WroteAll(field, threads, writes[..|writes| - 1]), writes[|writes| - 1])
  }

  function LastWrite(writes: seq<Write>, target: Target): (r: Option<bool>) {
    if writes == [] then None
    else if writes[|writes| - 1].target == target then Some(writes[|writes| - 1].value)
    else LastWrite(writes[..|writes| - 1], target)
  }

  function KeyOf(t: Thread): (r: Target) {
    Target(t.account, t.id)
  }

  /** Same threads in the same places, perhaps with other flags. */
  predicate SameKeys(a: seq<Thread>, b: seq<Thread>) {
    |a| == |b| && forall i :: 0 <= i < |a| ==> KeyOf(a[i]) == KeyOf(b[i])
  }

  lemma FindSame(a: seq<Thread>, b: seq<Thread>, target: Target)
    requires SameKeys(a, b)
    ensures Find(a, target) == Find(b, target)
  {
  }

  /** What a list of writes does to one position: the last write to its thread counts, if it is the first such thread. */
  lemma {:induction false} WroteAllAt(field: ToggleField, threads: seq<Thread>, writes: seq<Write>, k: nat)
    requires k < |threads|
    ensures SameKeys(threads, WroteAll(field, threads, writes))
    ensures WroteAll(field, threads, writes)[k] ==
            if Find(threads, KeyOf(threads[k])) == Some(k) && LastWrite(writes, KeyOf(threads[k])).Some?
            then WriteField(field, threads[k], LastWrite(writes, KeyOf(threads[k])).value)
            else threads[k]
  {
    if writes != [] {
      var before := writes[..|writes| - 1];
      var w := writes[|writes| - 1];
      WroteAllAt(field, threads, before, k);
      FindSame(threads, WroteAll(field, threads, before), w.target);
    }
  }

  // ---------------------------------------------------------------- toggling

  /** What was flipped, and the value it had. */
  datatype Mutation = Mutation(field: ToggleField, target: Target, previous: bool)

  datatype Toggling = Toggling(threads: seq<Thread>, history: seq<Mutation>)

  function ToggleOne(field: ToggleField, t: Toggling, target: Target): (r: Toggling) {
    match Find(t.threads, target)
    case None => t
    case Some(i) =>
      var previous := ReadField(field, t.threads[i]);
      Toggling(t.threads[i := WriteField(field, t.threads[i], !previous)], t.history + [Mutation(field, target, previous)])
  }

  function ToggleAll(field: ToggleField, threads: seq<Thread>, targets: seq<Target>): (r: Toggling) {
    if targets == [] then Toggling(threads, [])
    else ToggleOne(field, ToggleAll(field, threads, targets[..|targets| - 1]), targets[|targets| - 1])
  }

  function Count(targets: seq<Target>, target: Target): (r: nat) {
    if targets == [] then 0
    else Count(targets[..|targets| - 1], target) + if targets[|targets| - 1] == target then 1 else 0
  }

  /** The record holds this target with this previous value. */
  ghost predicate Recorded(history: seq<Mutation>, target: Target, previous: bool) {
    exists i :: 0 <= i < |history| && history[i].target == target && history[i].previous == previous
  }

  lemma RecordedExtends(history: seq<Mutation>, m: Mutation, target: Target, previous: bool)
    ensures Recorded(history + [m], target, previous) <==>
            Recorded(history, target, previous) || (m.target == target && m.previous == previous)
  {
    if m.target == target && m.previous == previous {
      assert (history + [m])[|history|] == m;
    }
    if Recorded(history, target, previous) {
      var i :| 0 <= i < |history| && history[i].target == target && history[i].previous == previous;
      assert (history + [m])[i] == history[i];
    }
  }

  lemma {:induction false} KeysKept(field: ToggleField, threads: seq<Thread>, targets: seq<Target>)
    ensures SameKeys(threads, ToggleAll(field, threads, targets).threads)
  {
    if targets != [] {
      KeysKept(field, threads, targets[..|targets| - 1]);
    }
  }

  lemma FieldLaws(field: ToggleField, t: Thread, a: bool, b: bool)
    ensures ReadField(field, WriteField(field, t, a)) == a
    ensures WriteField(field, WriteField(field, t, a), b) == WriteField(field, t, b)
    ensures WriteField(field, t, ReadField(field, t)) == t
    ensures KeyOf(WriteField(field, t, a)) == KeyOf(t)
  {
  }

  /** Whether the selections so far leave a thread flipped. */
  function Flipped(was: bool, n: nat): (r: bool) {
    if n == 0 then was else !Flipped(was, n - 1)
  }

  lemma {:induction false} FlippedByParity(was: bool, n: nat)
    ensures Flipped(was, n) == if n % 2 == 0 then was else !was
  {
    if n > 0 {
      FlippedByParity(was, n - 1);
    }
  }

  /** One selection at one position. */
  lemma ToggleOneAt(field: ToggleField, t: Toggling, target: Target, k: nat)
    requires k < |t.threads|
    ensures SameKeys(t.threads, ToggleOne(field, t, target).threads)
    ensures ToggleOne(field, t, target).threads[k] ==
            if Find(t.threads, target) == Some(k) then WriteField(field, t.threads[k], !ReadField(field, t.threads[k])) else t.threads[k]
  {
  }

  /** A listed target ends flipped if it is selected an odd number of times. Nothing else in the list changes. */
  lemma {:induction false} ToggledAt(field: ToggleField, threads: seq<Thread>, targets: seq<Target>, k: nat)
    requires k < |threads|
    ensures SameKeys(threads, ToggleAll(field, threads, targets).threads)
    ensures var after, key := ToggleAll(field, threads, targets).threads, KeyOf(threads[k]);
            after[k] == if Find(threads, key) == Some(k)
                        then WriteField(field, threads[k], Flipped(ReadField(field, threads[k]), Count(targets, key)))
                        else threads[k]
  {
    var was := ReadField(field, threads[k]);
    FieldLaws(field, threads[k], was, was);
    if targets != [] {
      var before, target := targets[..|targets| - 1], targets[|targets| - 1];
      var t := ToggleAll(field, threads, before);
      ToggledAt(field, threads, before, k);
      ToggleOneAt(field, t, target, k);
      FindSame(threads, t.threads, target);
      var value := Flipped(was, Count(before, KeyOf(threads[k])));
      FieldLaws(field, threads[k], value, !value);
    }
  }

  /** One more selection appends to the record: for a listed target, its value by then. */
  lemma ToggleStep(field: ToggleField, threads: seq<Thread>, targets: seq<Target>, k: nat) returns (m: Mutation)
    requires targets != [] && k < |threads| && Find(threads, KeyOf(threads[k])) == Some(k)
    ensures var before, target, key := targets[..|targets| - 1], targets[|targets| - 1], KeyOf(threads[k]);
            && ToggleAll(field, threads, targets).history ==
               ToggleAll(field, threads, before).history + (if Find(threads, target).Some? then [m] else [])
            && m.target == target
            && (target == key ==> m.previous == Flipped(ReadField(field, threads[k]), Count(before, key)))
  {
    var before, target := targets[..|targets| - 1], targets[|targets| - 1];
    var t, key, was := ToggleAll(field, threads, before), KeyOf(threads[k]), ReadField(field, threads[k]);
    ToggledAt(field, threads, before, k);
    FindSame(threads, t.threads, target);
    FieldLaws(field, threads[k], Flipped(was, Count(before, key)), was);
    m := Mutation(field, target, match Find(t.threads, target) case Some(i) => ReadField(field, t.threads[i]) case None => was);
  }

  /** The first selection of a listed target records the value it had, a second one the opposite value. */
  lemma {:induction false} RecordedAt(field: ToggleField, threads: seq<Thread>, targets: seq<Target>, k: nat)
    requires k < |threads| && Find(threads, KeyOf(threads[k])) == Some(k)
    ensures var history, was, n := ToggleAll(field, threads, targets).history, ReadField(field, threads[k]), Count(targets, KeyOf(threads[k]));
            && (Recorded(history, KeyOf(threads[k]), was) <==> n >= 1)
            && (Recorded(history, KeyOf(threads[k]), !was) <==> n >= 2)
  {
    if targets != [] {
      var before, key, was := targets[..|targets| - 1], KeyOf(threads[k]), ReadField(field, threads[k]);
      RecordedAt(field, threads, before, k);
      var m := ToggleStep(field, threads, targets, k);
      var history := ToggleAll(field, threads, before).history;
      RecordedExtends(history, m, key, was);
      RecordedExtends(history, m, key, !was);
      assert history + [] == history;
    }
  }

  /** Only listed targets are recorded, each entry for the toggled field; there are as many as listed selections. */
  lemma {:induction false} HistoryShape(field: ToggleField, threads: seq<Thread>, targets: seq<Target>, i: nat)
    requires i < |ToggleAll(field, threads, targets).history|
    ensures var m := ToggleAll(field, threads, targets).history[i];
            m.field == field && m.target in targets && Find(threads, m.target).Some?
  {
    if targets != [] {
      var before := targets[..|targets| - 1];
      var t := ToggleAll(field, threads, before);
      if i < |t.history| {
        HistoryShape(field, threads, before, i);
      }
      KeysKept(field, threads, before);
      FindSame(threads, t.threads, targets[|targets| - 1]);
    }
  }


  // ---------------------------------------------------------------- operations and plans

  datatype MailOperation =
    | Archive
    | Trash
    | PermanentDelete
    | SetSpam(spam: bool)
    | SetFlag(field: ToggleField, value: bool)
    | MoveToFolder(dest: string, source: Option<string>)
    | AddLabel(labelId: string)
    | RemoveLabel(labelId: string)
    | ApplyLabelGroup(groupId: int)
    | RemoveLabelGroup(groupId: int)
    | Snooze(until: int)
    | Unsnooze

  datatype Planned = Planned(target: Target, op: MailOperation)

  datatype Compensation = NoCompensation | SourceFolder(source: Option<string>)

  datatype ResolveOutcome =
    | Resolved(op: MailOperation, compensation: Compensation)
    | PerThreadToggle(field: ToggleField, compensation: Compensation)
    | NothingToDo

  datatype Plan = Plan(operations: seq<Planned>, reversible: bool, compensation: Compensation, optimistic: seq<Mutation>)

  /** `completion_behavior(op).undo`. */
  predicate Reversible(op: MailOperation) {
    op != PermanentDelete && op != Unsnooze
  }

  /** The operation that carries out a recorded flip. */
  function FlipOf(m: Mutation): (r: Planned) {
    Planned(m.target, SetFlag(m.field, !m.previous))
  }

  class ThreadList {
    var threads: seq<Thread>

    constructor (threads: seq<Thread>)
      ensures this.threads == threads
    {
      this.threads := threads;
    }

    /**
     * A uniform action leaves the list alone. A toggle flips the listed targets one after the other; operations and
     * record stay aligned, entry by entry, also when targets have vanished.
     */
    method BuildExecutionPlan(outcome: ResolveOutcome, targets: seq<Target>) returns (plan: Option<Plan>)
      modifies this
      ensures plan == None <==> outcome.NothingToDo?
      ensures !outcome.PerThreadToggle? ==> threads == old(threads)
      ensures outcome.Resolved? ==>
                && plan.value.optimistic == [] && plan.value.compensation == outcome.compensation
                && plan.value.reversible == Reversible(outcome.op)
                && |plan.value.operations| == |targets|
                && forall i :: 0 <= i < |targets| ==> plan.value.operations[i] == Planned(targets[i], outcome.op)
      ensures outcome.PerThreadToggle? ==>
                && Toggling(threads, plan.value.optimistic) == ToggleAll(outcome.field, old(threads), targets)
                && plan.value.compensation == outcome.compensation && plan.value.reversible
                && |plan.value.operations| == |plan.value.optimistic|
                && forall i :: 0 <= i < |plan.value.optimistic| ==> plan.value.operations[i] == FlipOf(plan.value.optimistic[i])
    {
      match outcome {
        case NothingToDo =>
          plan := None;
        case Resolved(op, compensation) =>
          plan := Some(Plan(seq(|targets|, i requires 0 <= i < |targets| => Planned(targets[i], op)), Reversible(op), compensation, []));
        case PerThreadToggle(field, compensation) =>
          var operations: seq<Planned>, optimistic: seq<Mutation> := [], [];
          for i := 0 to |targets|
            invariant Toggling(threads, optimistic) == ToggleAll(field, old(threads), targets[..i])
            invariant |operations| == |optimistic|
            invariant forall j :: 0 <= j < |optimistic| ==> operations[j] == FlipOf(optimistic[j])
          {
            assert targets[..i + 1][..i] == targets[..i];
            var target := targets[i];
            var found := Find(threads, target);
            if found.Some? {
              var t := threads[found.value];
              var previous := ReadField(field, t);
              operations := operations + [Planned(target, SetFlag(field, !previous))];
              optimistic := optimistic + [Mutation(field, target, previous)];
              threads := threads[found.value := WriteField(field, t, !previous)];
            }
          }
          assert targets[..|targets|] == targets;
          plan := Some(Plan(operations, Reversible(SetFlag(field, true)), compensation, optimistic));
      }
    }

    /** Put back what the record says, oldest entry first; a thread that is gone is skipped. */
    method RollbackOptimistic(mutations: seq<Mutation>)
      modifies this
      ensures threads == PutBackAll(old(threads), mutations)
    {
      for i := 0 to |mutations|
        invariant threads == PutBackAll(old(threads), mutations[..i])
      {
        assert mutations[..i + 1][..i] == mutations[..i];
        var m := mutations[i];
        var found := Find(threads, m.target);
        if found.Some? {
          threads := threads[found.value := WriteField(m.field, threads[found.value], m.previous)];
        }
      }
      assert mutations[..|mutations|] == mutations;
    }

    /**
     * A toggle that did not change anything leaves the list alone; one that failed throughout is rolled back, and one
     * that failed in part is rolled back there. Only then the undo payloads are built.
     */
    method HandleActionCompleted(plan: Plan, outcomes: seq<Outcome>) returns (payloads: seq<Payload>, ghost groups: seq<Group>)
      requires plan.operations == [] ==> outcomes == []
      modifies this
      ensures threads == PutBackAll(old(threads), ToPutBack(plan.optimistic, outcomes))
      ensures !plan.reversible || AllAre(outcomes, NoOp) || AllAre(outcomes, Failed) ==> payloads == []
      ensures plan.reversible && plan.optimistic != [] ==>
                Groups(Marked(plan.optimistic), outcomes, groups) && payloads == TogglePayloads(plan.optimistic[0].field, groups)
    {
      payloads, groups := [], [];
      NothingTaken(Marked(plan.optimistic), outcomes);
      if AllAre(outcomes, NoOp) {
        return;
      }
      if AllAre(outcomes, Failed) {
        RollbackOptimistic(plan.optimistic);
        return;
      }
      var failed: seq<Mutation> := [];
      var n := Min(|plan.optimistic|, |outcomes|);
      for i := 0 to n
        invariant failed == FailedPart(plan.optimistic, outcomes, i)
      {
        if outcomes[i] == Failed {
          failed := failed + [plan.optimistic[i]];
        }
      }
      RollbackOptimistic(failed);
      payloads, groups := BuildUndoPayloads(plan, outcomes);
    }
  }

  function PutBack(threads: seq<Thread>, m: Mutation): (after: seq<Thread>) {
    Wrote(m.field, threads, Write(m.target, m.previous))
  }

  function PutBackAll(threads: seq<Thread>, mutations: seq<Mutation>): (after: seq<Thread>) {
    if mutations == [] then threads
    else PutBack(PutBackAll(threads, mutations[..|mutations| - 1]), mutations[|mutations| - 1])
  }

  /** A record of one field, as a toggle makes it, is put back by writes to this field. */
  lemma {:induction false} PutBackOneField(field: ToggleField, threads: seq<Thread>, mutations: seq<Mutation>)
    requires forall i :: 0 <= i < |mutations| ==> mutations[i].field == field
    ensures PutBackAll(threads, mutations) == WroteAll(field, threads, RollbackWrites(mutations))
  {
    if mutations != [] {
      var before := mutations[..|mutations| - 1];
      PutBackOneField(field, threads, before);
      assert RollbackWrites(mutations)[..|before|] == RollbackWrites(before);
    }
  }

  function RollbackWrites(mutations: seq<Mutation>): (writes: seq<Write>)
    ensures |writes| == |mutations|
  {
    seq(|mutations|, i requires 0 <= i < |mutations| => Write(mutations[i].target, mutations[i].previous))
  }

  // ---------------------------------------------------------------- undo payloads

  datatype Outcome = Success | NoOp | LocalOnly | Failed

  /** The action took effect, remotely or at least here. */
  predicate Took(o: Outcome) {
    o == Success || o == LocalOnly
  }

  predicate AllAre(outcomes: seq<Outcome>, outcome: Outcome) {
    forall i :: 0 <= i < |outcomes| ==> outcomes[i] == outcome
  }

  /** Among the first `n` entries of the record those whose operation failed, in order. */
  function FailedPart(history: seq<Mutation>, outcomes: seq<Outcome>, n: nat): (r: seq<Mutation>)
    requires n <= |history| && n <= |outcomes|
  {
    if n == 0 then []
    else FailedPart(history, outcomes, n - 1) + if outcomes[n - 1] == Failed then [history[n - 1]] else []
  }

  /** The part of the record that the completion of the action puts back. */
  function ToPutBack(history: seq<Mutation>, outcomes: seq<Outcome>): (r: seq<Mutation>) {
    if AllAre(outcomes, NoOp) then []
    else if AllAre(outcomes, Failed) then history
    else FailedPart(history, outcomes, Min(|history|, |outcomes|))
  }

  datatype Undo =
    | UndoArchive
    | UndoTrash(source: string)
    | UndoMove(source: string)
    | UndoSpam(was: bool)
    | SetBack(field: ToggleField, was: bool)
    | UndoAddLabel(labelId: string)
    | UndoRemoveLabel(labelId: string)
    | UndoApplyGroup(groupId: int)
    | UndoRemoveGroup(groupId: int)
    | UndoSnooze

  datatype Payload = Payload(account: string, threads: seq<string>, undo: Undo)

  function Min(a: nat, b: nat): (r: nat) {
    if a < b then a else b
  }

  /** Among the first `n` pairs of target and outcome: the account's threads on which the action took, in order. */
  function Taken(marked: seq<(Target, bool)>, outcomes: seq<Outcome>, n: nat, account: string, mark: bool): (r: seq<string>)
    requires n <= |marked| && n <= |outcomes|
  {
    if n == 0 then []
    else
      var before := Taken(marked, outcomes, n - 1, account, mark);
      if Took(outcomes[n - 1]) && marked[n - 1] == (Target(account, marked[n - 1].0.thread), mark)
      then before + [marked[n - 1].0.thread]
      else before
  }

  /** The record as (target, previous value). */
  function Marked(history: seq<Mutation>): (marked: seq<(Target, bool)>)
    ensures |marked| == |history|
  {
    seq(|history|, i requires 0 <= i < |history| => (history[i].target, history[i].previous))
  }

  lemma {:induction false} TakenHolds(marked: seq<(Target, bool)>, outcomes: seq<Outcome>, n: nat, account: string, mark: bool, thread: string)
    requires n <= |marked| && n <= |outcomes|
    ensures thread in Taken(marked, outcomes, n, account, mark) <==>
            exists i :: 0 <= i < n && Took(outcomes[i]) && marked[i] == (Target(account, thread), mark)
  {
    if n > 0 {
      TakenHolds(marked, outcomes, n - 1, account, mark, thread);
    }
  }

  /** The order of strings: by the first character that differs, a prefix first. */
  predicate Before(a: string, b: string) {
    b != "" && (a == "" || a[0] < b[0] || (a[0] == b[0] && Before(a[1..], b[1..])))
  }

  lemma {:induction false} BeforeIsTransitive(a: string, b: string, c: string)
    requires Before(a, b) && Before(b, c)
    ensures Before(a, c)
  {
    if a != "" && a[0] == b[0] == c[0] {
      BeforeIsTransitive(a[1..], b[1..], c[1..]);
    }
  }

  lemma {:induction false} BeforeIsIrreflexive(a: string)
    ensures !Before(a, a)
  {
    if a != "" {
      BeforeIsIrreflexive(a[1..]);
    }
  }

  lemma {:induction false} BeforeIsTotal(a: string, b: string)
    ensures a == b || Before(a, b) || Before(b, a)
  {
    if a != "" && b != "" && a[0] == b[0] {
      BeforeIsTotal(a[1..], b[1..]);
      assert a == [a[0]] + a[1..] && b == [b[0]] + b[1..];
    }
  }

  /** The order of the keys: by account, then false before true. */
  predicate KeyBefore(a: (string, bool), b: (string, bool)) {
    Before(a.0, b.0) || (a.0 == b.0 && !a.1 && b.1)
  }

  /** One payload for each (account, mark) with anything taken, holding exactly that, in the order of the keys. */
  ghost predicate Groups(marked: seq<(Target, bool)>, outcomes: seq<Outcome>, groups: seq<Group>)
  {
    var n := Min(|marked|, |outcomes|);
    && (forall j :: 0 <= j < |groups| ==>
          groups[j].1 != [] && groups[j].1 == Taken(marked, outcomes, n, groups[j].0.0, groups[j].0.1))
    && (forall i, j :: 0 <= i < j < |groups| ==> KeyBefore(groups[i].0, groups[j].0))
    && (forall account, mark :: Taken(marked, outcomes, n, account, mark) != [] ==>
          Listed(groups, (account, mark)))
  }

  type ByKey = map<(string, bool), seq<string>>
  type Group = ((string, bool), seq<string>)

  /** The map after the first `n` pairs: an entry exactly for each key with anything taken. */
  ghost predicate Filled(marked: seq<(Target, bool)>, outcomes: seq<Outcome>, n: nat, byKey: ByKey)
    requires n <= |marked| && n <= |outcomes|
  {
    forall account, mark :: Holds(byKey, account, mark, Taken(marked, outcomes, n, account, mark))
  }

  predicate Holds(byKey: ByKey, account: string, mark: bool, taken: seq<string>) {
    if (account, mark) in byKey then byKey[(account, mark)] == taken && taken != [] else taken == []
  }

  method FillByKey(marked: seq<(Target, bool)>, outcomes: seq<Outcome>) returns (byKey: ByKey, accounts: set<string>)
    ensures Filled(marked, outcomes, Min(|marked|, |outcomes|), byKey)
    ensures forall key :: key in byKey ==> key.0 in accounts
  {
    var n := Min(|marked|, |outcomes|);
    byKey, accounts := map[], {};
    for i := 0 to n
      invariant Filled(marked, outcomes, i, byKey)
      invariant forall key :: key in byKey ==> key.0 in accounts
    {
      ghost var before := byKey;
      if Took(outcomes[i]) {
        var target, mark := marked[i].0, marked[i].1;
        var key := (target.account, mark);
        byKey := byKey[key := (if key in byKey then byKey[key] else []) + [target.thread]];
        accounts := accounts + {target.account};
      }
      ghost var now := i + 1;
      forall account, mark ensures Holds(byKey, account, mark, Taken(marked, outcomes, now, account, mark)) {
        assert Holds(before, account, mark, Taken(marked, outcomes, i, account, mark));
      }
    }
  }

  /** The account's groups, false before true. */
  function AccountGroups(byKey: ByKey, account: string): (r: seq<Group>) {
    (if (account, false) in byKey then [((account, false), byKey[(account, false)])] else []) +
    (if (account, true) in byKey then [((account, true), byKey[(account, true)])] else [])
  }

  /** The groups list the map's entries of all accounts but those still to go. */
  ghost predicate Lists(byKey: ByKey, rest: set<string>, groups: seq<Group>) {
    && (forall j :: 0 <= j < |groups| ==> groups[j].0 in byKey && groups[j].1 == byKey[groups[j].0] && groups[j].0.0 !in rest)
    && (forall i, j :: 0 <= i < j < |groups| ==> KeyBefore(groups[i].0, groups[j].0))
    && (forall j, account :: 0 <= j < |groups| && account in rest ==> Before(groups[j].0.0, account))
    && (forall key :: key in byKey && key.0 !in rest ==> Listed(groups, key))
  }

  ghost predicate Listed(groups: seq<Group>, key: (string, bool)) {
    exists j :: 0 <= j < |groups| && groups[j].0 == key
  }

  /** The groups are the account's entries of the map, false before true. */
  ghost predicate GroupsOf(byKey: ByKey, account: string, more: seq<Group>) {
    && (forall j :: 0 <= j < |more| ==> more[j].0 in byKey && more[j].1 == byKey[more[j].0] && more[j].0.0 == account)
    && (forall i, j :: 0 <= i < j < |more| ==> !more[i].0.1 && more[j].0.1)
    && ((account, false) in byKey ==> Listed(more, (account, false)))
    && ((account, true) in byKey ==> Listed(more, (account, true)))
  }

  lemma AccountGroupsAreThose(byKey: ByKey, account: string)
    ensures GroupsOf(byKey, account, AccountGroups(byKey, account))
  {
    var more := AccountGroups(byKey, account);
    assert (account, false) in byKey ==> more[0].0 == (account, false);
    assert (account, true) in byKey ==> more[|more| - 1].0 == (account, true);
  }

  lemma ListedStill(a: seq<Group>, b: seq<Group>, key: (string, bool))
    requires Listed(a, key) || Listed(b, key)
    ensures Listed(a + b, key)
  {
    if Listed(a, key) {
      var j :| 0 <= j < |a| && a[j].0 == key;
      assert (a + b)[j].0 == key;
    } else {
      var j :| 0 <= j < |b| && b[j].0 == key;
      assert (a + b)[|a| + j].0 == key;
    }
  }

  lemma ListsGrows(byKey: ByKey, rest: set<string>, groups: seq<Group>, account: string, more: seq<Group>)
    requires Lists(byKey, rest, groups) && IsFirst(rest, account) && GroupsOf(byKey, account, more)
    ensures Lists(byKey, rest - {account}, groups + more)
  {
    forall key | key in byKey && key.0 !in rest - {account} ensures Listed(groups + more, key) {
      if key.0 == account {
        var mark := key.1;
        assert key == (account, mark) && (account, mark) in byKey;
      }
      ListedStill(groups, more, key);
    }
  }

  /** The account comes before every other one in the set. */
  ghost predicate IsFirst(accounts: set<string>, account: string) {
    account in accounts && forall other :: other in accounts && other != account ==> Before(account, other)
  }

  method FirstAccount(accounts: set<string>) returns (first: string)
    requires accounts != {}
    ensures IsFirst(accounts, first)
  {
    first :| first in accounts;
    var rest := accounts - {first};
    while rest != {}
      invariant rest <= accounts && IsFirst(accounts - rest, first)
      decreases |rest|
    {
      var other :| other in rest;
      BeforeIsTotal(first, other);
      if Before(other, first) {
        forall third | third in accounts - rest && third != first ensures Before(other, third) {
          BeforeIsTransitive(other, first, third);
        }
        first := other;
      }
      rest := rest - {other};
    }
    assert accounts - rest == accounts;
  }

  /** Fill the map in one pass, then list it in the order of its keys. */
  method GroupByKey(marked: seq<(Target, bool)>, outcomes: seq<Outcome>) returns (groups: seq<Group>)
    ensures Groups(marked, outcomes, groups)
  {
    var byKey, accounts := FillByKey(marked, outcomes);
    groups := [];
    while accounts != {}
      invariant Lists(byKey, accounts, groups)
      invariant forall key :: key in byKey ==> key.0 in accounts || Listed(groups, key)
      decreases |accounts|
    {
      var account := FirstAccount(accounts);
      AccountGroupsAreThose(byKey, account);
      ListsGrows(byKey, accounts, groups, account, AccountGroups(byKey, account));
      accounts := accounts - {account};
      groups := groups + AccountGroups(byKey, account);
    }
    ListedAll(marked, outcomes, byKey, groups);
  }

  lemma ListedAll(marked: seq<(Target, bool)>, outcomes: seq<Outcome>, byKey: ByKey, groups: seq<Group>)
    requires Filled(marked, outcomes, Min(|marked|, |outcomes|), byKey) && Lists(byKey, {}, groups)
    ensures Groups(marked, outcomes, groups)
  {
    var n := Min(|marked|, |outcomes|);
    forall j | 0 <= j < |groups|
      ensures groups[j].1 != [] && groups[j].1 == Taken(marked, outcomes, n, groups[j].0.0, groups[j].0.1)
    {
      assert Holds(byKey, groups[j].0.0, groups[j].0.1, Taken(marked, outcomes, n, groups[j].0.0, groups[j].0.1));
    }
    forall account, mark | Taken(marked, outcomes, n, account, mark) != [] ensures Listed(groups, (account, mark)) {
      assert Holds(byKey, account, mark, Taken(marked, outcomes, n, account, mark));
    }
  }

  /** Without an operation that took there is nothing to group. */
  lemma NothingTaken(marked: seq<(Target, bool)>, outcomes: seq<Outcome>)
    ensures AllAre(outcomes, NoOp) || AllAre(outcomes, Failed) ==> Groups(marked, outcomes, [])
  {
    var n := Min(|marked|, |outcomes|);
    forall account, mark ensures AllAre(outcomes, NoOp) || AllAre(outcomes, Failed) ==> Taken(marked, outcomes, n, account, mark) == [] {
      var taken := Taken(marked, outcomes, n, account, mark);
      if taken != [] {
        TakenHolds(marked, outcomes, n, account, mark, taken[0]);
      }
    }
  }

  /** `undo_payload_to_ops`: the operation that takes one thread back. */
  function InverseOp(undo: Undo): (r: MailOperation) {
    match undo
    case UndoArchive => MoveToFolder("INBOX", None)
    case UndoTrash(source) => MoveToFolder(source, None)
    case UndoMove(source) => MoveToFolder(source, None)
    case UndoSpam(was) => SetSpam(was)
    case SetBack(field, was) => SetFlag(field, was)
    case UndoAddLabel(labelId) => RemoveLabel(labelId)
    case UndoRemoveLabel(labelId) => AddLabel(labelId)
    case UndoApplyGroup(groupId) => RemoveLabelGroup(groupId)
    case UndoRemoveGroup(groupId) => ApplyLabelGroup(groupId)
    case UndoSnooze => Unsnooze
  }

  function InverseOps(p: Payload): (ops: seq<Planned>)
    ensures |ops| == |p.threads|
  {
    seq(|p.threads|, i requires 0 <= i < |p.threads| => Planned(Target(p.account, p.threads[i]), InverseOp(p.undo)))
  }

  /** The inverse plan of an undo entry: every payload's operations in order. */
  function InversePlan(payloads: seq<Payload>): (r: seq<Planned>) {
    if payloads == [] then [] else InversePlan(payloads[..|payloads| - 1]) + InverseOps(payloads[|payloads| - 1])
  }

  /** How a uniform action is undone; None when there is nothing to go back to. */
  function UndoFor(op: MailOperation, compensation: Compensation): (r: Option<Undo>) {
    match op
    case Archive => Some(UndoArchive)
    case Trash =>
      if compensation.SourceFolder? && compensation.source.Some? then Some(UndoTrash(compensation.source.value)) else None
    case MoveToFolder(_, source) => if source.Some? then Some(UndoMove(source.value)) else None
    case SetSpam(to') => Some(UndoSpam(!to'))
    case AddLabel(labelId) => Some(UndoAddLabel(labelId))
    case RemoveLabel(labelId) => Some(UndoRemoveLabel(labelId))
    case ApplyLabelGroup(groupId) => Some(UndoApplyGroup(groupId))
    case RemoveLabelGroup(groupId) => Some(UndoRemoveGroup(groupId))
    case Snooze(_) => Some(UndoSnooze)
    case _ => None
  }

  function TogglePayloads(field: ToggleField, groups: seq<Group>): (payloads: seq<Payload>)
    ensures |payloads| == |groups|
  {
    seq(|groups|, j requires 0 <= j < |groups| => Payload(groups[j].0.0, groups[j].1, SetBack(field, groups[j].0.1)))
  }

  function UniformPayloads(undo: Undo, groups: seq<Group>): (payloads: seq<Payload>)
    ensures |payloads| == |groups|
  {
    seq(|groups|, j requires 0 <= j < |groups| => Payload(groups[j].0.0, groups[j].1, undo))
  }

  /** A uniform plan's targets, all under one mark: grouping by account alone. */
  function Unmarked(operations: seq<Planned>): (marked: seq<(Target, bool)>)
    ensures |marked| == |operations|
  {
    seq(|operations|, i requires 0 <= i < |operations| => (operations[i].target, false))
  }

  /**
   * The payloads of a completed plan: none if it is irreversible or failed throughout; for a toggle one per account and
   * previous value, for a uniform action one per account (if it can be undone at all), each with the threads on which
   * the action took.
   */
  method BuildUndoPayloads(plan: Plan, outcomes: seq<Outcome>) returns (payloads: seq<Payload>, ghost groups: seq<Group>)
    requires plan.operations != [] || forall i :: 0 <= i < |outcomes| ==> outcomes[i] == Failed
    ensures !plan.reversible || (forall i :: 0 <= i < |outcomes| ==> outcomes[i] == Failed) ==> payloads == []
    ensures plan.reversible && (exists i :: 0 <= i < |outcomes| && outcomes[i] != Failed) ==>
              if plan.optimistic != [] then
                Groups(Marked(plan.optimistic), outcomes, groups) && payloads == TogglePayloads(plan.optimistic[0].field, groups)
              else
                && Groups(Unmarked(plan.operations), outcomes, groups)
                && payloads == match UndoFor(plan.operations[0].op, plan.compensation)
                               case Some(undo) => UniformPayloads(undo, groups)
                               case None => []
  {
    groups := [];
    if !plan.reversible || (forall i :: 0 <= i < |outcomes| ==> outcomes[i] == Failed) {
      payloads := [];
      return;
    }
    if plan.optimistic != [] {
      var byKey := GroupByKey(Marked(plan.optimistic), outcomes);
      groups := byKey;
      payloads := TogglePayloads(plan.optimistic[0].field, byKey);
    } else {
      var byAccount := GroupByKey(Unmarked(plan.operations), outcomes);
      groups := byAccount;
      var undo := UndoFor(plan.operations[0].op, plan.compensation);
      payloads := if undo.Some? then UniformPayloads(undo.value, byAccount) else [];
    }
  }

  /** A thread on which a uniform action took is taken back under its own account, and only such threads are. */
  lemma UniformUndoCovers(operations: seq<Planned>, outcomes: seq<Outcome>, undo: Undo, groups: seq<Group>, target: Target)
    requires Groups(Unmarked(operations), outcomes, groups)
    ensures (exists i :: 0 <= i < Min(|operations|, |outcomes|) && Took(outcomes[i]) && operations[i].target == target) <==>
            (exists j :: 0 <= j < |groups| && UniformPayloads(undo, groups)[j].account == target.account
                         && target.thread in UniformPayloads(undo, groups)[j].threads)
  {
    var marked, n := Unmarked(operations), Min(|operations|, |outcomes|);
    TakenHolds(marked, outcomes, n, target.account, false, target.thread);
    if i :| 0 <= i < n && Took(outcomes[i]) && operations[i].target == target {
      assert marked[i] == (Target(target.account, target.thread), false);
      assert Listed(groups, (target.account, false));
      var j :| 0 <= j < |groups| && groups[j].0 == (target.account, false);
      assert UniformPayloads(undo, groups)[j].threads == groups[j].1;
    }
    if j :| 0 <= j < |groups| && UniformPayloads(undo, groups)[j].account == target.account && target.thread in UniformPayloads(undo, groups)[j].threads {
      TakenHolds(marked, outcomes, n, target.account, groups[j].0.1, target.thread);
      var i :| 0 <= i < n && Took(outcomes[i]) && marked[i] == (Target(target.account, target.thread), groups[j].0.1);
      assert operations[i].target == target;
    }
  }

  // ---------------------------------------------------------------- undo inverts toggles

  function GroupWrites(g: Group): (writes: seq<Write>)
    ensures |writes| == |g.1|
  {
    seq(|g.1|, i requires 0 <= i < |g.1| => Write(Target(g.0.0, g.1[i]), g.0.1))
  }

  /** The writes the inverse plan of these groups makes to the list. */
  function UndoWrites(groups: seq<Group>): (r: seq<Write>) {
    if groups == [] then [] else UndoWrites(groups[..|groups| - 1]) + GroupWrites(groups[|groups| - 1])
  }

  /** The operations that make these writes. */
  function FlagOps(field: ToggleField, writes: seq<Write>): (ops: seq<Planned>)
    ensures |ops| == |writes|
  {
    seq(|writes|, i requires 0 <= i < |writes| => Planned(writes[i].target, SetFlag(field, writes[i].value)))
  }

  lemma GroupInverse(field: ToggleField, g: Group)
    ensures InverseOps(Payload(g.0.0, g.1, SetBack(field, g.0.1))) == FlagOps(field, GroupWrites(g))
  {
    var p := Payload(g.0.0, g.1, SetBack(field, g.0.1));
    forall i | 0 <= i < |g.1| ensures InverseOps(p)[i] == FlagOps(field, GroupWrites(g))[i] {
      assert GroupWrites(g)[i] == Write(Target(g.0.0, g.1[i]), g.0.1);
      assert InverseOps(p)[i] == Planned(Target(g.0.0, g.1[i]), InverseOp(p.undo));
      assert InverseOp(p.undo) == SetFlag(field, g.0.1);
    }
  }

  lemma FlagOpsConcat(field: ToggleField, a: seq<Write>, b: seq<Write>)
    ensures FlagOps(field, a + b) == FlagOps(field, a) + FlagOps(field, b)
  {
  }

  /** The inverse plan of a toggle is made of exactly these writes, in this order. */
  lemma {:induction false} InversePlanWrites(field: ToggleField, groups: seq<Group>)
    ensures InversePlan(TogglePayloads(field, groups)) == FlagOps(field, UndoWrites(groups))
  {
    if groups != [] {
      var before, last := groups[..|groups| - 1], groups[|groups| - 1];
      var payloads := TogglePayloads(field, groups);
      InversePlanWrites(field, before);
      assert payloads[..|payloads| - 1] == TogglePayloads(field, before);
      GroupInverse(field, last);
      FlagOpsConcat(field, UndoWrites(before), GroupWrites(last));
    }
  }

  lemma {:induction false} LastWriteConcat(a: seq<Write>, b: seq<Write>, target: Target)
    ensures LastWrite(a + b, target) == if LastWrite(b, target).Some? then LastWrite(b, target) else LastWrite(a, target)
  {
    if b == [] {
      assert a + b == a;
    } else {
      LastWriteConcat(a, b[..|b| - 1], target);
      assert (a + b)[..|a + b| - 1] == a + b[..|b| - 1];
    }
  }

  lemma {:induction false} LastWriteOfGroup(g: Group, target: Target)
    ensures LastWrite(GroupWrites(g), target) ==
            if target.account == g.0.0 && target.thread in g.1 then Some(g.0.1) else None
    decreases |g.1|
  {
    if g.1 != [] {
      var before := (g.0, g.1[..|g.1| - 1]);
      LastWriteOfGroup(before, target);
      assert GroupWrites(g)[..|g.1| - 1] == GroupWrites(before);
    }
  }

  ghost predicate InGroup(groups: seq<Group>, target: Target, mark: bool) {
    exists j :: 0 <= j < |groups| && groups[j].0 == (target.account, mark) && target.thread in groups[j].1
  }

  /** With an account's true group last, a thread in both its groups ends up true. */
  lemma {:induction false} UndoLastWrite(groups: seq<Group>, target: Target)
    requires forall i, j :: 0 <= i < j < |groups| ==> KeyBefore(groups[i].0, groups[j].0)
    ensures LastWrite(UndoWrites(groups), target) ==
            if InGroup(groups, target, true) then Some(true) else if InGroup(groups, target, false) then Some(false) else None
  {
    if groups != [] {
      var before, last := groups[..|groups| - 1], groups[|groups| - 1];
      UndoLastWrite(before, target);
      LastWriteOfGroup(last, target);
      LastWriteConcat(UndoWrites(before), GroupWrites(last), target);
      InGroupExtends(groups, target, true);
      InGroupExtends(groups, target, false);
      if InGroup(before, target, true) {
        var j :| 0 <= j < |before| && before[j].0 == (target.account, true) && target.thread in before[j].1;
        assert groups[j] == before[j] && groups[|before|] == last;
        BeforeIsIrreflexive(target.account);
      }
    }
  }

  lemma InGroupExtends(groups: seq<Group>, target: Target, mark: bool)
    requires groups != []
    ensures var before, last := groups[..|groups| - 1], groups[|groups| - 1];
            InGroup(groups, target, mark) <==>
            InGroup(before, target, mark) || (last.0 == (target.account, mark) && target.thread in last.1)
  {
    var before := groups[..|groups| - 1];
    if InGroup(before, target, mark) {
      var j :| 0 <= j < |before| && before[j].0 == (target.account, mark) && target.thread in before[j].1;
      assert groups[j] == before[j];
    }
  }

  /** The record holds this target with this previous value, and there the action took. */
  ghost predicate RecordedAndTook(history: seq<Mutation>, outcomes: seq<Outcome>, target: Target, previous: bool) {
    exists i :: 0 <= i < Min(|history|, |outcomes|) && Took(outcomes[i]) && history[i].target == target && history[i].previous == previous
  }

  lemma GroupedIffTook(history: seq<Mutation>, outcomes: seq<Outcome>, groups: seq<Group>, target: Target, mark: bool)
    requires Groups(Marked(history), outcomes, groups)
    ensures InGroup(groups, target, mark) <==> RecordedAndTook(history, outcomes, target, mark)
  {
    var marked, n := Marked(history), Min(|history|, |outcomes|);
    TakenHolds(marked, outcomes, n, target.account, mark, target.thread);
    if RecordedAndTook(history, outcomes, target, mark) {
      var i :| 0 <= i < n && Took(outcomes[i]) && history[i].target == target && history[i].previous == mark;
      assert marked[i] == (Target(target.account, target.thread), mark);
      assert Listed(groups, (target.account, mark));
    }
    if InGroup(groups, target, mark) {
      var i :| 0 <= i < n && Took(outcomes[i]) && marked[i] == (Target(target.account, target.thread), mark);
      assert history[i].target == target;
    }
  }

  /** The list after a toggle, its completion and its undo. */
  function Undone(field: ToggleField, threads: seq<Thread>, targets: seq<Target>, groups: seq<Group>): (r: seq<Thread>) {
    WroteAll(field, ToggleAll(field, threads, targets).threads, UndoWrites(groups))
  }

  /** What undo leaves at one position, in terms of where the action took. */
  lemma UndoneAt(field: ToggleField, threads: seq<Thread>, targets: seq<Target>, outcomes: seq<Outcome>, groups: seq<Group>, k: nat)
    requires k < |threads| && Groups(Marked(ToggleAll(field, threads, targets).history), outcomes, groups)
    ensures var t, key := ToggleAll(field, threads, targets), KeyOf(threads[k]);
            && |Undone(field, threads, targets, groups)| == |threads| == |t.threads|
            && Undone(field, threads, targets, groups)[k] ==
               if Find(threads, key) != Some(k) then threads[k]
               else if RecordedAndTook(t.history, outcomes, key, true) then WriteField(field, threads[k], true)
               else if RecordedAndTook(t.history, outcomes, key, false) then WriteField(field, threads[k], false)
               else t.threads[k]
  {
    var t, key := ToggleAll(field, threads, targets), KeyOf(threads[k]);
    ToggledAt(field, threads, targets, k);
    WroteAllAt(field, t.threads, UndoWrites(groups), k);
    FindSame(threads, t.threads, key);
    UndoLastWrite(groups, key);
    GroupedIffTook(t.history, outcomes, groups, key, true);
    GroupedIffTook(t.history, outcomes, groups, key, false);
    var flipped := Flipped(ReadField(field, threads[k]), Count(targets, key));
    FieldLaws(field, threads[k], flipped, true);
    FieldLaws(field, threads[k], flipped, false);
  }

  predicate Distinct(targets: seq<Target>) {
    forall i, j :: 0 <= i < j < |targets| ==> targets[i] != targets[j]
  }

  lemma {:induction false} DistinctCount(targets: seq<Target>, target: Target)
    requires Distinct(targets)
    ensures Count(targets, target) == if target in targets then 1 else 0
  {
    if targets != [] {
      DistinctCount(targets[..|targets| - 1], target);
    }
  }

  /** The action took on this recorded target. */
  ghost predicate TookOn(history: seq<Mutation>, outcomes: seq<Outcome>, target: Target) {
    exists i :: 0 <= i < Min(|history|, |outcomes|) && Took(outcomes[i]) && history[i].target == target
  }

  lemma TookOnEither(history: seq<Mutation>, outcomes: seq<Outcome>, target: Target)
    ensures TookOn(history, outcomes, target) <==>
            RecordedAndTook(history, outcomes, target, true) || RecordedAndTook(history, outcomes, target, false)
    ensures forall mark :: RecordedAndTook(history, outcomes, target, mark) ==> Recorded(history, target, mark)
  {
    if i :| 0 <= i < Min(|history|, |outcomes|) && Took(outcomes[i]) && history[i].target == target {
      assert RecordedAndTook(history, outcomes, target, history[i].previous);
    }
  }

  /**
   * Undo inverts a toggle of distinct targets, whatever each outcome: a thread on which the action took is again as it
   * was before the action, and no other thread is touched.
   */
  lemma UndoInverts(field: ToggleField, threads: seq<Thread>, targets: seq<Target>, outcomes: seq<Outcome>, groups: seq<Group>, k: nat)
    requires Distinct(targets) && k < |threads|
    requires Groups(Marked(ToggleAll(field, threads, targets).history), outcomes, groups)
    ensures var t, key := ToggleAll(field, threads, targets), KeyOf(threads[k]);
            && |Undone(field, threads, targets, groups)| == |threads| == |t.threads|
            && Undone(field, threads, targets, groups)[k] ==
               if Find(threads, key) == Some(k) && TookOn(t.history, outcomes, key) then threads[k] else t.threads[k]
  {
    var t, key, was := ToggleAll(field, threads, targets), KeyOf(threads[k]), ReadField(field, threads[k]);
    UndoneAt(field, threads, targets, outcomes, groups, k);
    ToggledAt(field, threads, targets, k);
    TookOnEither(t.history, outcomes, key);
    if Find(threads, key) == Some(k) {
      RecordedAt(field, threads, targets, k);
      DistinctCount(targets, key);
      FieldLaws(field, threads[k], was, was);
    }
  }

  /**
   * For repeated targets too, and any outcomes: undo leaves the right value at a position (a thread on which the action
   * took as it was before, any other as the the flag was on just in case some entry on which
   * the action took recorded it on.
   */
  lemma UndoneRightIff(field: ToggleField, threads: seq<Thread>, targets: seq<Target>, outcomes: seq<Outcome>, groups: seq<Group>, k: nat)
    requires k < |threads| && Groups(Marked(ToggleAll(field, threads, targets).history), outcomes, groups)
    ensures var t, key, was := ToggleAll(field, threads, targets), KeyOf(threads[k]), ReadField(field, threads[k]);
            var took := Find(threads, key) == Some(k) && TookOn(t.history, outcomes, key);
            && |Undone(field, threads, targets, groups)| == |threads| == |t.threads|
            && (Undone(field, threads, targets, groups)[k] == (if took then threads[k] else t.threads[k]) <==>
                (took ==> was == RecordedAndTook(t.history, outcomes, key, true)))
  {
    var t, key, was := ToggleAll(field, threads, targets), KeyOf(threads[k]), ReadField(field, threads[k]);
    UndoneAt(field, threads, targets, outcomes, groups, k);
    ToggledAt(field, threads, targets, k);
    TookOnEither(t.history, outcomes, key);
    FieldLaws(field, threads[k], was, was);
    FieldLaws(field, threads[k], true, true);
    FieldLaws(field, threads[k], false, false);
  }

  /** If the action took everywhere, undo restores the list exactly when no thread whose flag was off is selected twice. */
  lemma UndoRestoresIff(field: ToggleField, threads: seq<Thread>, targets: seq<Target>, outcomes: seq<Outcome>, groups: seq<Group>)
    requires Groups(Marked(ToggleAll(field, threads, targets).history), outcomes, groups)
    requires |outcomes| == |ToggleAll(field, threads, targets).history| && forall i :: 0 <= i < |outcomes| ==> Took(outcomes[i])
    ensures Undone(field, threads, targets, groups) == threads <==>
            forall k :: 0 <= k < |threads| && Find(threads, KeyOf(threads[k])) == Some(k) && !ReadField(field, threads[k])
                        ==> Count(targets, KeyOf(threads[k])) <= 1
  {
    KeysKept(field, threads, targets);
    KeysWritten(field, ToggleAll(field, threads, targets).threads, UndoWrites(groups));
    var after := Undone(field, threads, targets, groups);
    forall k | 0 <= k < |threads|
      ensures after[k] == threads[k] <==>
              !(Find(threads, KeyOf(threads[k])) == Some(k) && !ReadField(field, threads[k]) && Count(targets, KeyOf(threads[k])) >= 2)
    {
      RestoredAt(field, threads, targets, outcomes, groups, k);
    }
  }

  lemma {:induction false} KeysWritten(field: ToggleField, threads: seq<Thread>, writes: seq<Write>)
    ensures SameKeys(threads, WroteAll(field, threads, writes))
  {
    if writes != [] {
      KeysWritten(field, threads, writes[..|writes| - 1]);
    }
  }

  lemma RestoredAt(field: ToggleField, threads: seq<Thread>, targets: seq<Target>, outcomes: seq<Outcome>, groups: seq<Group>, k: nat)
    requires k < |threads| && Groups(Marked(ToggleAll(field, threads, targets).history), outcomes, groups)
    requires |outcomes| == |ToggleAll(field, threads, targets).history| && forall i :: 0 <= i < |outcomes| ==> Took(outcomes[i])
    ensures |Undone(field, threads, targets, groups)| == |threads|
    ensures Undone(field, threads, targets, groups)[k] == threads[k] <==>
            !(Find(threads, KeyOf(threads[k])) == Some(k) && !ReadField(field, threads[k]) && Count(targets, KeyOf(threads[k])) >= 2)
  {
    var t, key, was := ToggleAll(field, threads, targets), KeyOf(threads[k]), ReadField(field, threads[k]);
    UndoneRightIff(field, threads, targets, outcomes, groups, k);
    ToggledAt(field, threads, targets, k);
    TookOnEither(t.history, outcomes, key);
    if Find(threads, key) == Some(k) {
      RecordedAt(field, threads, targets, k);
      AllTook(t.history, outcomes, key, true);
      AllTook(t.history, outcomes, key, false);
      FieldLaws(field, threads[k], was, was);
    }
  }

  lemma AllTook(history: seq<Mutation>, outcomes: seq<Outcome>, target: Target, mark: bool)
    requires |outcomes| == |history| && forall i :: 0 <= i < |outcomes| ==> Took(outcomes[i])
    ensures RecordedAndTook(history, outcomes, target, mark) <==> Recorded(history, target, mark)
  {
  }

  /** For distinct targets each thread on which the action took is in exactly one group: its own account's, under its earlier value. */
  lemma InExactlyOnePayload(field: ToggleField, threads: seq<Thread>, targets: seq<Target>, outcomes: seq<Outcome>, groups: seq<Group>, k: nat)
    requires Distinct(targets) && k < |threads| && Find(threads, KeyOf(threads[k])) == Some(k)
    requires Groups(Marked(ToggleAll(field, threads, targets).history), outcomes, groups)
    requires TookOn(ToggleAll(field, threads, targets).history, outcomes, KeyOf(threads[k]))
    ensures exists j :: 0 <= j < |groups| && threads[k].id in groups[j].1
                        && groups[j].0 == (threads[k].account, ReadField(field, threads[k]))
    ensures forall i, j ::
              (&& 0 <= i < |groups| && 0 <= j < |groups| && groups[i].0.0 == groups[j].0.0 == threads[k].account
               && threads[k].id in groups[i].1 && threads[k].id in groups[j].1) ==> i == j
  {
    var t, key, was := ToggleAll(field, threads, targets), KeyOf(threads[k]), ReadField(field, threads[k]);
    RecordedAt(field, threads, targets, k);
    DistinctCount(targets, key);
    TookOnEither(t.history, outcomes, key);
    GroupedIffTook(t.history, outcomes, groups, key, was);
    GroupedIffTook(t.history, outcomes, groups, key, !was);
    forall i, j | 0 <= i < |groups| && 0 <= j < |groups| && groups[i].0.0 == groups[j].0.0 == threads[k].account
                  && threads[k].id in groups[i].1 && threads[k].id in groups[j].1
      ensures i == j
    {
      assert InGroup(groups, key, groups[i].0.1) && InGroup(groups, key, groups[j].0.1);
      BeforeIsIrreflexive(key.account);
    }
  }

  /** Selecting an unflagged thread twice: the toggle cancels out, the undo then sets the flag. */
  lemma TwiceSelectedIsNotRestored(field: ToggleField, t: Thread, groups: seq<Group>)
    requires !ReadField(field, t)
    requires Groups(Marked(ToggleAll(field, [t], [KeyOf(t), KeyOf(t)]).history), [Success, Success], groups)
    ensures ToggleAll(field, [t], [KeyOf(t), KeyOf(t)]).threads == [t]
    ensures Undone(field, [t], [KeyOf(t), KeyOf(t)], groups) == [WriteField(field, t, true)]
  {
    var key := KeyOf(t);
    var targets := [key, key];
    assert targets[..1] == [key] && [key][..0] == [];
    assert ToggleAll(field, [t], [key]) == Toggling([WriteField(field, t, true)], [Mutation(field, key, false)]);
    assert ToggleAll(field, [t], targets).history == [Mutation(field, key, false), Mutation(field, key, true)];
    ToggledAt(field, [t], targets, 0);
    FieldLaws(field, t, false, false);
    UndoneAt(field, [t], targets, [Success, Success], groups, 0);
    assert RecordedAndTook(ToggleAll(field, [t], targets).history, [Success, Success], key, true) by {
      assert ToggleAll(field, [t], targets).history[1] == Mutation(field, key, true);
    }
  }

  /** The outcomes matter: a flagged thread selected twice, with no effect the first time, ends up unflagged. */
  lemma FlaggedTwiceIsNotRestored(field: ToggleField, t: Thread, groups: seq<Group>)
    requires ReadField(field, t)
    requires Groups(Marked(ToggleAll(field, [t], [KeyOf(t), KeyOf(t)]).history), [NoOp, Success], groups)
    ensures ToggleAll(field, [t], [KeyOf(t), KeyOf(t)]).threads == [t]
    ensures Undone(field, [t], [KeyOf(t), KeyOf(t)], groups) == [WriteField(field, t, false)]
  {
    var key := KeyOf(t);
    var targets := [key, key];
    assert targets[..1] == [key] && [key][..0] == [];
    assert ToggleAll(field, [t], [key]) == Toggling([WriteField(field, t, false)], [Mutation(field, key, true)]);
    assert ToggleAll(field, [t], targets).history == [Mutation(field, key, true), Mutation(field, key, false)];
    ToggledAt(field, [t], targets, 0);
    FieldLaws(field, t, true, true);
    UndoneAt(field, [t], targets, [NoOp, Success], groups, 0);
    assert RecordedAndTook(ToggleAll(field, [t], targets).history, [NoOp, Success], key, false) by {
      assert ToggleAll(field, [t], targets).history[1] == Mutation(field, key, false);
    }
  }

  // ---------------------------------------------------------------- rollback

  /** The last entry of a listed target: the value before its last selection. */
  lemma {:induction false} LastRecorded(field: ToggleField, threads: seq<Thread>, targets: seq<Target>, k: nat)
    requires k < |threads| && Find(threads, KeyOf(threads[k])) == Some(k)
    ensures var n := Count(targets, KeyOf(threads[k]));
            LastWrite(RollbackWrites(ToggleAll(field, threads, targets).history), KeyOf(threads[k])) ==
            if n == 0 then None else Some(Flipped(ReadField(field, threads[k]), n - 1))
  {
    if targets != [] {
      var before, key := targets[..|targets| - 1], KeyOf(threads[k]);
      LastRecorded(field, threads, before, k);
      var m := ToggleStep(field, threads, targets, k);
      var history := ToggleAll(field, threads, before).history;
      assert history + [] == history;
      assert RollbackWrites(history + [m])[..|history|] == RollbackWrites(history);
    }
  }

  lemma WritingKeeps(field: ToggleField, t: Thread, value: bool)
    ensures WriteField(field, t, value) == t <==> value == ReadField(field, t)
  {
  }

  lemma ParityKeeps(field: ToggleField, t: Thread, n: nat)
    requires n > 0
    ensures WriteField(field, t, Flipped(ReadField(field, t), n - 1)) == t <==> n % 2 == 1
  {
    FlippedByParity(ReadField(field, t), n - 1);
    WritingKeeps(field, t, Flipped(ReadField(field, t), n - 1));
  }

  lemma ParityDecides(field: ToggleField, threads: seq<Thread>, after: seq<Thread>, counts: seq<nat>, first: seq<bool>)
    requires |threads| == |after| == |counts| == |first|
    requires forall k :: 0 <= k < |threads| ==>
               after[k] == if first[k] && counts[k] > 0
                           then WriteField(field, threads[k], Flipped(ReadField(field, threads[k]), counts[k] - 1))
                           else threads[k]
    ensures after == threads <==> forall k :: 0 <= k < |threads| && first[k] ==> counts[k] == 0 || counts[k] % 2 == 1
  {
    forall k | 0 <= k < |threads|
      ensures after[k] == threads[k] <==> (first[k] ==> counts[k] == 0 || counts[k] % 2 == 1)
    {
      if counts[k] > 0 {
        ParityKeeps(field, threads[k], counts[k]);
      }
    }
  }

  /** How often each position's thread is selected, and whether the position is the first with this thread. */
  function Counts(threads: seq<Thread>, targets: seq<Target>): (counts: seq<nat>)
    ensures |counts| == |threads| && forall k :: 0 <= k < |threads| ==> counts[k] == Count(targets, KeyOf(threads[k]))
  {
    seq(|threads|, k requires 0 <= k < |threads| => Count(targets, KeyOf(threads[k])))
  }

  function Firsts(threads: seq<Thread>): (firsts: seq<bool>)
    ensures |firsts| == |threads| && forall k :: 0 <= k < |threads| ==> firsts[k] == (Find(threads, KeyOf(threads[k])) == Some(k))
  {
    seq(|threads|, k requires 0 <= k < |threads| => Find(threads, KeyOf(threads[k])) == Some(k))
  }

  function RolledBack(field: ToggleField, threads: seq<Thread>, targets: seq<Target>): (r: seq<Thread>) {
    var t := ToggleAll(field, threads, targets);
    PutBackAll(t.threads, t.history)
  }

  lemma RolledBackWrites(field: ToggleField, threads: seq<Thread>, targets: seq<Target>)
    ensures var t := ToggleAll(field, threads, targets);
            RolledBack(field, threads, targets) == WroteAll(field, t.threads, RollbackWrites(t.history))
  {
    var t := ToggleAll(field, threads, targets);
    forall i | 0 <= i < |t.history| ensures t.history[i].field == field {
      HistoryShape(field, threads, targets, i);
    }
    PutBackOneField(field, t.threads, t.history);
  }

  /** Each position after the rollback. */
  lemma RolledBackTo(field: ToggleField, threads: seq<Thread>, targets: seq<Target>, k: nat)
    requires k < |threads|
    ensures |RolledBack(field, threads, targets)| == |threads|
    ensures RolledBack(field, threads, targets)[k] ==
            if Firsts(threads)[k] && Counts(threads, targets)[k] > 0
            then WriteField(field, threads[k], Flipped(ReadField(field, threads[k]), Counts(threads, targets)[k] - 1))
            else threads[k]
  {
    var t, key, was := ToggleAll(field, threads, targets), KeyOf(threads[k]), ReadField(field, threads[k]);
    var n := Count(targets, key);
    RolledBackWrites(field, threads, targets);
    ToggledAt(field, threads, targets, k);
    WroteAllAt(field, t.threads, RollbackWrites(t.history), k);
    FindSame(threads, t.threads, key);
    if Find(threads, key) == Some(k) {
      LastRecorded(field, threads, targets, k);
      FieldLaws(field, threads[k], Flipped(was, n), if n > 0 then Flipped(was, n - 1) else was);
    }
  }

  lemma RolledBackLength(field: ToggleField, threads: seq<Thread>, targets: seq<Target>)
    ensures |RolledBack(field, threads, targets)| == |threads|
  {
    var t := ToggleAll(field, threads, targets);
    RolledBackWrites(field, threads, targets);
    KeysKept(field, threads, targets);
    KeysWritten(field, t.threads, RollbackWrites(t.history));
  }

  /**
   * Rolling a toggle back right away restores the list exactly when each listed target is selected an odd number of
   * times or not at all.
   */
  lemma RollbackRestoresIff(field: ToggleField, threads: seq<Thread>, targets: seq<Target>)
    ensures RolledBack(field, threads, targets) == threads <==>
            forall k :: 0 <= k < |threads| && Firsts(threads)[k] ==>
              Counts(threads, targets)[k] == 0 || Counts(threads, targets)[k] % 2 == 1
  {
    var after, counts, firsts := RolledBack(field, threads, targets), Counts(threads, targets), Firsts(threads);
    RolledBackLength(field, threads, targets);
    forall k | 0 <= k < |threads|
      ensures after[k] == if firsts[k] && counts[k] > 0
                          then WriteField(field, threads[k], Flipped(ReadField(field, threads[k]), counts[k] - 1))
                          else threads[k]
    {
      RolledBackTo(field, threads, targets, k);
    }
    ParityDecides(field, threads, after, counts, firsts);
  }

  /** It fails at once for a thread selected twice: the toggle cancels out, the rollback then flips the flag. */
  lemma TwiceSelectedIsNotRolledBack(field: ToggleField, t: Thread)
    ensures ToggleAll(field, [t], [KeyOf(t), KeyOf(t)]).threads == [t]
    ensures RolledBack(field, [t], [KeyOf(t), KeyOf(t)]) == [WriteField(field, t, !ReadField(field, t))]
  {
    var targets := [KeyOf(t), KeyOf(t)];
    assert targets[..1] == [KeyOf(t)] && [KeyOf(t)][..0] == [];
    assert Count([KeyOf(t)], KeyOf(t)) == 1 && Count(targets[..1], KeyOf(t)) == 1;
    assert Count(targets, KeyOf(t)) == Count(targets[..1], KeyOf(t)) + 1;
    ToggledAt(field, [t], targets, 0);
    FieldLaws(field, t, ReadField(field, t), false);
    RolledBackTo(field, [t], targets, 0);
  }

  // ---------------------------------------------------------------- completion, then undo

  /** The list after a toggle, its completion with the rollback of what failed, and its undo. */
  function CompletedAndUndone(field: ToggleField, threads: seq<Thread>, targets: seq<Target>, outcomes: seq<Outcome>, groups: seq<Group>): (r: seq<Thread>) {
    var t := ToggleAll(field, threads, targets);
    WroteAll(field, PutBackAll(t.threads, ToPutBack(t.history, outcomes)), UndoWrites(groups))
  }

  /** The value written last to this target: by the undo, else by the rollback. */
  ghost function LastValue(history: seq<Mutation>, outcomes: seq<Outcome>, target: Target): (r: Option<bool>) {
    if RecordedAndTook(history, outcomes, target, true) then Some(true)
    else if RecordedAndTook(history, outcomes, target, false) then Some(false)
    else LastWrite(RollbackWrites(ToPutBack(history, outcomes)), target)
  }

  lemma {:induction false} FailedPartIsRecorded(history: seq<Mutation>, outcomes: seq<Outcome>, n: nat, m: Mutation)
    requires n <= |history| && n <= |outcomes|
    ensures m in FailedPart(history, outcomes, n) <==> exists i :: 0 <= i < n && outcomes[i] == Failed && history[i] == m
  {
    if n > 0 {
      FailedPartIsRecorded(history, outcomes, n - 1, m);
    }
  }

  lemma PutBackIsRecorded(history: seq<Mutation>, outcomes: seq<Outcome>, m: Mutation)
    ensures m in ToPutBack(history, outcomes) ==> m in history
    ensures |outcomes| == |history| ==>
              (m in ToPutBack(history, outcomes) <==> exists i :: 0 <= i < |history| && outcomes[i] == Failed && history[i] == m)
  {
    FailedPartIsRecorded(history, outcomes, Min(|history|, |outcomes|), m);
  }

  lemma {:induction false} LastWriteIsRecorded(mutations: seq<Mutation>, target: Target)
    ensures match LastWrite(RollbackWrites(mutations), target)
            case Some(value) => exists m :: m in mutations && m.target == target && m.previous == value
            case None => forall m :: m in mutations ==> m.target != target
  {
    if mutations != [] {
      var before, last := mutations[..|mutations| - 1], mutations[|mutations| - 1];
      LastWriteIsRecorded(before, target);
      assert RollbackWrites(mutations)[..|before|] == RollbackWrites(before);
      assert mutations == before + [last];
    }
  }

  /** What completion and undo leave at one position: the last value written, else what the toggle left. */
  lemma CompletedAndUndoneAt(field: ToggleField, threads: seq<Thread>, targets: seq<Target>, outcomes: seq<Outcome>, groups: seq<Group>, k: nat)
    requires k < |threads| && Groups(Marked(ToggleAll(field, threads, targets).history), outcomes, groups)
    ensures var t, key := ToggleAll(field, threads, targets), KeyOf(threads[k]);
            var value := LastValue(t.history, outcomes, key);
            && |CompletedAndUndone(field, threads, targets, outcomes, groups)| == |threads| == |t.threads|
            && CompletedAndUndone(field, threads, targets, outcomes, groups)[k] ==
               if Find(threads, key) == Some(k) && value.Some? then WriteField(field, threads[k], value.value) else t.threads[k]
  {
    var t, key := ToggleAll(field, threads, targets), KeyOf(threads[k]);
    var failed := ToPutBack(t.history, outcomes);
    PutBackOfToggle(field, threads, targets, outcomes);
    var after := WroteAll(field, t.threads, RollbackWrites(failed));
    ToggledAt(field, threads, targets, k);
    WroteAllAt(field, t.threads, RollbackWrites(failed), k);
    WroteAllAt(field, after, UndoWrites(groups), k);
    FindSame(threads, t.threads, key);
    FindSame(t.threads, after, key);
    UndoLastWrite(groups, key);
    GroupedIffTook(t.history, outcomes, groups, key, true);
    GroupedIffTook(t.history, outcomes, groups, key, false);
    WrittenTwice(field, threads[k], Flipped(ReadField(field, threads[k]), Count(targets, key)));
  }

  lemma WrittenTwice(field: ToggleField, t: Thread, a: bool)
    ensures forall b, c :: WriteField(field, WriteField(field, WriteField(field, t, a), b), c) == WriteField(field, t, c)
    ensures forall b :: WriteField(field, WriteField(field, t, a), b) == WriteField(field, t, b)
  {
    forall b, c ensures WriteField(field, WriteField(field, WriteField(field, t, a), b), c) == WriteField(field, t, c) {
      FieldLaws(field, t, a, b);
      FieldLaws(field, WriteField(field, t, a), b, c);
      FieldLaws(field, t, a, c);
    }
    forall b ensures WriteField(field, WriteField(field, t, a), b) == WriteField(field, t, b) {
      FieldLaws(field, t, a, b);
    }
  }

  lemma PutBackOfToggle(field: ToggleField, threads: seq<Thread>, targets: seq<Target>, outcomes: seq<Outcome>)
    ensures var t := ToggleAll(field, threads, targets);
            PutBackAll(t.threads, ToPutBack(t.history, outcomes)) == WroteAll(field, t.threads, RollbackWrites(ToPutBack(t.history, outcomes)))
  {
    var t := ToggleAll(field, threads, targets);
    var failed := ToPutBack(t.history, outcomes);
    forall i | 0 <= i < |failed| ensures failed[i].field == field {
      PutBackIsRecorded(t.history, outcomes, failed[i]);
      var j :| 0 <= j < |t.history| && t.history[j] == failed[i];
      HistoryShape(field, threads, targets, j);
    }
    PutBackOneField(field, t.threads, failed);
  }

  /**
   * For any targets and outcomes, completion and undo together leave the right value at a position (as before the action
   * where it took or was rolled back, otherwise as the action left it) exactly when the last value written there is the
   * thread's own.
   */
  lemma CompletedAndUndoneRightIff(field: ToggleField, threads: seq<Thread>, targets: seq<Target>, outcomes: seq<Outcome>, groups: seq<Group>, k: nat)
    requires k < |threads| && Groups(Marked(ToggleAll(field, threads, targets).history), outcomes, groups)
    ensures var t, key := ToggleAll(field, threads, targets), KeyOf(threads[k]);
            var value := LastValue(t.history, outcomes, key);
            var written := Find(threads, key) == Some(k) && value.Some?;
            && |CompletedAndUndone(field, threads, targets, outcomes, groups)| == |threads| == |t.threads|
            && (CompletedAndUndone(field, threads, targets, outcomes, groups)[k] == (if written then threads[k] else t.threads[k]) <==>
                (written ==> value.value == ReadField(field, threads[k])))
  {
    CompletedAndUndoneAt(field, threads, targets, outcomes, groups, k);
    WritingKeeps(field, threads[k], true);
    WritingKeeps(field, threads[k], false);
  }

  /** Distinct targets are recorded once each. */
  lemma {:induction false} RecordedOnce(field: ToggleField, threads: seq<Thread>, targets: seq<Target>)
    requires Distinct(targets)
    ensures var history := ToggleAll(field, threads, targets).history;
            forall i, j :: 0 <= i < j < |history| ==> history[i].target != history[j].target
  {
    if targets != [] {
      var before, last := targets[..|targets| - 1], targets[|targets| - 1];
      var history := ToggleAll(field, threads, before).history;
      RecordedOnce(field, threads, before);
      forall i | 0 <= i < |history| ensures history[i].target != last {
        HistoryShape(field, threads, before, i);
      }
    }
  }

  /** Every entry for a listed target holds the value before the action, if targets are distinct. */
  lemma RecordedBefore(field: ToggleField, threads: seq<Thread>, targets: seq<Target>, k: nat)
    requires Distinct(targets) && k < |threads| && Find(threads, KeyOf(threads[k])) == Some(k)
    ensures forall m :: m in ToggleAll(field, threads, targets).history && m.target == KeyOf(threads[k]) ==>
              m.previous == ReadField(field, threads[k])
  {
    var history, was := ToggleAll(field, threads, targets).history, ReadField(field, threads[k]);
    RecordedAt(field, threads, targets, k);
    DistinctCount(targets, KeyOf(threads[k]));
    forall m | m in history && m.target == KeyOf(threads[k]) ensures m.previous == was {
      assert Recorded(history, KeyOf(threads[k]), m.previous);
    }
  }

  /**
   * For distinct targets and one outcome each: after completion and undo every thread whose operation succeeded, stayed
   * local or failed is as it was before the action. A thread whose operation changed nothing stays flipped in the list.
   */
  lemma CompletionThenUndoInverts(field: ToggleField, threads: seq<Thread>, targets: seq<Target>, outcomes: seq<Outcome>, groups: seq<Group>, k: nat, i: nat)
    requires Distinct(targets) && |outcomes| == |ToggleAll(field, threads, targets).history| && i < |outcomes|
    requires Groups(Marked(ToggleAll(field, threads, targets).history), outcomes, groups)
    requires k < |threads| && Find(threads, KeyOf(threads[k])) == Some(k)
    requires ToggleAll(field, threads, targets).history[i].target == KeyOf(threads[k])
    ensures var t := ToggleAll(field, threads, targets);
            && |CompletedAndUndone(field, threads, targets, outcomes, groups)| == |threads| == |t.threads|
            && CompletedAndUndone(field, threads, targets, outcomes, groups)[k] ==
               if outcomes[i] == NoOp then t.threads[k] else threads[k]
  {
    var history, key, was := ToggleAll(field, threads, targets).history, KeyOf(threads[k]), ReadField(field, threads[k]);
    CompletedAndUndoneAt(field, threads, targets, outcomes, groups, k);
    OneEntryDecides(history, outcomes, key, was, i) by {
      RecordedOnce(field, threads, targets);
      RecordedBefore(field, threads, targets, k);
    }
    WritingKeeps(field, threads[k], was);
  }

  /** With a single entry for a target, its outcome says whether it is written, and its own value is. */
  lemma OneEntryDecides(history: seq<Mutation>, outcomes: seq<Outcome>, target: Target, was: bool, i: nat)
    requires |outcomes| == |history| && i < |history| && history[i].target == target
    requires forall a, b :: 0 <= a < b < |history| ==> history[a].target != history[b].target
    requires forall m :: m in history && m.target == target ==> m.previous == was
    ensures LastValue(history, outcomes, target) == if outcomes[i] == NoOp then None else Some(was)
  {
    var failed := ToPutBack(history, outcomes);
    LastWriteIsRecorded(failed, target);
    PutBackIsRecorded(history, outcomes, history[i]);
    assert outcomes[i] == Failed ==> history[i] in failed;
    forall m | m in failed && m.target == target ensures outcomes[i] == Failed && m.previous == was {
      PutBackIsRecorded(history, outcomes, m);
      var j :| 0 <= j < |history| && outcomes[j] == Failed && history[j] == m;
      assert j == i;
    }
    assert history[i].previous == was;
    assert RecordedAndTook(history, outcomes, target, was) <==> Took(outcomes[i]);
    assert !RecordedAndTook(history, outcomes, target, !was);
  }
}
