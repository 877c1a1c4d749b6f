/** The goals and todos an agent remembers (zhongshu-orb/src/agent.rs:147-257, 297-303). */
module AgentMemory {
  import opened Text

  datatype Status = Active | Completed | Archived

  datatype Goal = Goal(text: string, status: Status)

  datatype Todo = Todo(text: string, done: bool)

  datatype Memory = Memory(goals: seq<Goal>, todos: seq<Todo>)

  predicate HasActive(goals: seq<Goal>, text: string) { Goal(text, Active) in goals }

  predicate HasOpen(todos: seq<Todo>, text: string) { Todo(text, false) in todos }

  /** No two active goals share a text, and no two open todos do. */
  predicate NoDuplicates(m: Memory) {
    && (forall i, j :: 0 <= i < j < |m.goals| && m.goals[i].status.Active? && m.goals[j].status.Active? ==>
          m.goals[i].text != m.goals[j].text)
    && forall i, j :: 0 <= i < j < |m.todos| && !m.todos[i].done && !m.todos[j].done ==>
         m.todos[i].text != m.todos[j].text
  }

  // -- Parsing the reply ----------------------------------------------

  function Lines(text: string): (lines: seq<string>)
    ensures lines != []
  {
    if text == [] then [[]]
    else
      var rest := Lines(text[1..]);
      if text[0] == '\n' then [[]] + rest else [[text[0]] + rest[0]] + rest[1..]
  }

  /** The texts of list items whose box holds `mark`. */
  function Boxes(lines: seq<string>, mark: char): seq<string> {
    if lines == [] then []
    else
      var line := Trim(lines[0]);
      var rest := Boxes(lines[1..], mark);
      if ['-', ' ', '[', mark, ']', ' '] <= line || ['*', ' ', '[', mark, ']', ' '] <= line then
        var text := Trim(line[6..]);
        if text == [] then rest else [text] + rest
      else rest
  }

  // -- The operations as functions of the state -----------------------

  function AddGoal(goals: seq<Goal>, text: string): seq<Goal> {
    if HasActive(goals, text) then goals else goals + [Goal(text, Active)]
  }

  /** The first active goal of this text becomes completed. */
  function CompleteGoal(goals: seq<Goal>, text: string): seq<Goal> {
    if goals == [] then []
    else if goals[0] == Goal(text, Active) then [Goal(text, Completed)] + goals[1..]
    else [goals[0]] + CompleteGoal(goals[1..], text)
  }

  function CompleteAll(goals: seq<Goal>, texts: seq<string>): seq<Goal>
    decreases |texts|
  {
    if texts == [] then goals else CompleteAll(CompleteGoal(goals, texts[0]), texts[1..])
  }

  function AddTodos(todos: seq<Todo>, texts: seq<string>): seq<Todo>
    decreases |texts|
  {
    if texts == [] then todos
    else AddTodos(if HasOpen(todos, texts[0]) then todos else todos + [Todo(texts[0], false)], texts[1..])
  }

  /** How many completed goals come before index `i`. */
  function Rank(goals: seq<Goal>, i: nat): nat
    requires i <= |goals|
  {
    if i == 0 then 0 else Rank(goals, i - 1) + if goals[i - 1].status.Completed? then 1 else 0
  }

  function Excess(goals: seq<Goal>, keep: nat): nat {
    var completed := Rank(goals, |goals|);
    if completed < keep then 0 else completed - keep
  }

  /** The earliest completed goals beyond `keep` are archived, everything else stays as it is. */
  function Archive(goals: seq<Goal>, keep: nat): seq<Goal> {
    seq(|goals|, i requires 0 <= i < |goals| =>
      if goals[i].status.Completed? && Rank(goals, i) < Excess(goals, keep) then goals[i].(status := Archived)
      else goals[i])
  }

  datatype Op = Add(text: string) | Complete(text: string) | Todos(response: string) | Completions(response: string)
              | ArchiveOld(keep: nat)

  function Apply(m: Memory, op: Op): Memory {
    match op
    case Add(text) => m.(goals := AddGoal(m.goals, text))
    case Complete(text) => m.(goals := CompleteGoal(m.goals, text))
    case Todos(response) => m.(todos := AddTodos(m.todos, Boxes(Lines(response), ' ')))
    case Completions(response) => m.(goals := CompleteAll(m.goals, Boxes(Lines(response), 'x')))
    case ArchiveOld(keep) => m.(goals := Archive(m.goals, keep))
  }

  function ApplyAll(m: Memory, ops: seq<Op>): Memory
    decreases |ops|
  {
    if ops == [] then m else ApplyAll(Apply(m, ops[0]), ops[1..])
  }

  // -- The operations step by step ------------------------------------

  /** `locked` is false when the write lock could not be taken at once: the operation then does nothing. */
  class Store {
    var goals: seq<Goal>
    var todos: seq<Todo>

    constructor (goals: seq<Goal>, todos: seq<Todo>)
      ensures View() == Memory(goals, todos)
    {
      this.goals, this.todos := goals, todos;
    }

    function View(): Memory
      reads this
    {
      Memory(goals, todos)
    }

    method AddNewGoal(text: string, locked: bool)
      modifies this`goals
      ensures View() == if locked then Apply(old(View()), Add(text)) else old(View())
    {
      if locked {
        for i := 0 to |goals|
          invariant goals == old(goals)
          invariant forall k :: 0 <= k < i ==> goals[k] != Goal(text, Active)
        {
          if goals[i].text == text && goals[i].status == Active { return; }
        }
        goals := goals + [Goal(text, Active)];
      }
    }

    method MarkCompleted(text: string, locked: bool) returns (found: bool)
      modifies this`goals
      ensures View() == if locked then Apply(old(View()), Complete(text)) else old(View())
      ensures found <==> locked && HasActive(old(goals), text)
    {
      if !locked { return false; }
      for i := 0 to |goals|
        invariant goals == old(goals)
        invariant forall k :: 0 <= k < i ==> goals[k] != Goal(text, Active)
      {
        if goals[i].text == text && goals[i].status == Active {
          CompleteAt(goals, text, i);
          goals := goals[i := goals[i].(status := Completed)];
          return true;
        }
      }
      CompleteNone(goals, text);
      return false;
    }

    method ExtractTodos(response: string, locked: bool)
      modifies this`todos
      ensures View() == if locked then Apply(old(View()), Todos(response)) else old(View())
    {
      if locked {
        var added := Boxes(Lines(response), ' ');
        for i := 0 to |added|
          invariant AddTodos(todos, added[i..]) == AddTodos(old(todos), added)
        {
          assert added[i..][1..] == added[i + 1..];
          if !HasOpen(todos, added[i]) {
            todos := todos + [Todo(added[i], false)];
          }
        }
      }
    }

    method ExtractGoalCompletions(response: string)
      modifies this`goals
      ensures View() == Apply(old(View()), Completions(response))
    {
      var completed := Boxes(Lines(response), 'x');
      for i := 0 to |completed|
        invariant todos == old(todos)
        invariant CompleteAll(goals, completed[i..]) == CompleteAll(old(goals), completed)
      {
        assert completed[i..][1..] == completed[i + 1..];
        var _ := MarkCompleted(completed[i], true);
      }
    }

    method ArchiveCompletedGoals(keepCompleted: nat, locked: bool)
      modifies this`goals
      ensures View() == if locked then Apply(old(View()), ArchiveOld(keepCompleted)) else old(View())
    {
      if !locked { return; }
      hide Rank; hide Archive; hide Indices;
      ghost var before := goals;
      var indices := CompletedIndices(goals);
      IndicesCount(before, indices);
      var toArchive := if |indices| < keepCompleted then 0 else |indices| - keepCompleted;
      ArchiveFirst(indices, toArchive);
      AllArchived(before, keepCompleted);
    }

    method ArchiveFirst(indices: seq<nat>, toArchive: nat)
      requires Indices(goals, |goals|, indices) && toArchive <= |indices|
      modifies this`goals
      ensures goals == ArchivedBelow(old(goals), toArchive)
    {
      hide *;
      ghost var before := goals;
      NoneArchived(before);
      for r := 0 to toArchive
        invariant goals == ArchivedBelow(before, r)
      {
        OneMoreArchived(before, indices, r);
        goals := goals[indices[r] := goals[indices[r]].(status := Archived)];
      }
    }
  }

  method CompletedIndices(goals: seq<Goal>) returns (indices: seq<nat>)
    ensures Indices(goals, |goals|, indices)
  {
    indices := [];
    for i := 0 to |goals|
      invariant Indices(goals, i, indices)
    {
      if goals[i].status == Completed { indices := indices + [i]; }
    }
  }

  lemma IndicesCount(goals: seq<Goal>, indices: seq<nat>)
    requires Indices(goals, |goals|, indices)
    ensures |indices| == Rank(goals, |goals|)
  {
  }

  /** The goals when the first `r` completed ones are archived. */
  function ArchivedBelow(goals: seq<Goal>, r: nat): seq<Goal> {
    seq(|goals|, i requires 0 <= i < |goals| =>
      if goals[i].status.Completed? && Rank(goals, i) < r then goals[i].(status := Archived) else goals[i])
  }

  lemma NoneArchived(goals: seq<Goal>)
    ensures ArchivedBelow(goals, 0) == goals
  {
  }

  lemma OneMoreArchived(goals: seq<Goal>, indices: seq<nat>, r: nat)
    requires Indices(goals, |goals|, indices) && r < |indices|
    ensures
      var k, now := indices[r], ArchivedBelow(goals, r);
      && k < |now|
      && ArchivedBelow(goals, r + 1) == now[k := now[k].(status := Archived)]
  {
    hide Rank;
    var k, now := indices[r], ArchivedBelow(goals, r);
    var next := ArchivedBelow(goals, r + 1);
    var updated := now[k := now[k].(status := Archived)];
    forall i: nat | i < |goals| ensures next[i] == updated[i] {
      if goals[i].status.Completed? && Rank(goals, i) == r { assert i == k; }
    }
  }

  lemma AllArchived(goals: seq<Goal>, keep: nat)
    ensures ArchivedBelow(goals, Excess(goals, keep)) == Archive(goals, keep)
  {
    hide Rank;
  }

  /** The completed goals before `i`, in order. */
  predicate Indices(goals: seq<Goal>, i: nat, indices: seq<nat>) {
    && i <= |goals| && |indices| == Rank(goals, i)
    && (forall r: nat | r < |indices| ::
          indices[r] < i && goals[indices[r]].status.Completed? && Rank(goals, indices[r]) == r)
    && forall k: nat | k < i && goals[k].status.Completed? :: Rank(goals, k) < |indices| && indices[Rank(goals, k)] == k
  }

  lemma {:induction false} CompleteAt(goals: seq<Goal>, text: string, i: nat)
    requires i < |goals| && goals[i] == Goal(text, Active)
    requires forall k :: 0 <= k < i ==> goals[k] != Goal(text, Active)
    ensures CompleteGoal(goals, text) == goals[i := Goal(text, Completed)]
  {
    if i > 0 { CompleteAt(goals[1..], text, i - 1); }
  }

  lemma {:induction false} CompleteNone(goals: seq<Goal>, text: string)
    requires !HasActive(goals, text)
    ensures CompleteGoal(goals, text) == goals
  {
    if goals != [] { CompleteNone(goals[1..], text); }
  }

  // -- What every run keeps -------------------------------------------

  /** Goals whose active ones are among the active ones of `goals`, index by index. */
  predicate FewerActive(goals: seq<Goal>, later: seq<Goal>) {
    && |later| == |goals|
    && forall i :: 0 <= i < |goals| ==>
         later[i].text == goals[i].text && (later[i] == goals[i] || !later[i].status.Active?)
  }

  lemma {:induction false} CompletingOnlyRemoves(goals: seq<Goal>, text: string)
    ensures FewerActive(goals, CompleteGoal(goals, text))
  {
    if goals != [] && goals[0] != Goal(text, Active) { CompletingOnlyRemoves(goals[1..], text); }
  }

  lemma {:induction false} CompletingAllOnlyRemoves(goals: seq<Goal>, texts: seq<string>)
    ensures FewerActive(goals, CompleteAll(goals, texts))
    decreases |texts|
  {
    if texts != [] {
      CompletingOnlyRemoves(goals, texts[0]);
      CompletingAllOnlyRemoves(CompleteGoal(goals, texts[0]), texts[1..]);
    }
  }

  lemma FewerActiveKeeps(m: Memory, later: seq<Goal>)
    requires NoDuplicates(m) && FewerActive(m.goals, later)
    ensures NoDuplicates(m.(goals := later))
  {
  }

  lemma {:induction false} AddingTodosKeeps(m: Memory, texts: seq<string>)
    requires NoDuplicates(m)
    ensures NoDuplicates(m.(todos := AddTodos(m.todos, texts)))
    decreases |texts|
  {
    if texts != [] {
      var todos := if HasOpen(m.todos, texts[0]) then m.todos else m.todos + [Todo(texts[0], false)];
      AddingTodosKeeps(m.(todos := todos), texts[1..]);
    }
  }

  lemma StepKeepsNoDuplicates(m: Memory, op: Op)
    requires NoDuplicates(m)
    ensures NoDuplicates(Apply(m, op))
  {
    match op
    case Add(text) =>
    case Complete(text) =>
      CompletingOnlyRemoves(m.goals, text);
      FewerActiveKeeps(m, CompleteGoal(m.goals, text));
    case Todos(response) =>
      AddingTodosKeeps(m, Boxes(Lines(response), ' '));
    case Completions(response) =>
      CompletingAllOnlyRemoves(m.goals, Boxes(Lines(response), 'x'));
      FewerActiveKeeps(m, CompleteAll(m.goals, Boxes(Lines(response), 'x')));
    case ArchiveOld(keep) =>
      FewerActiveKeeps(m, Archive(m.goals, keep));
  }

  /** No run of operations ever makes a duplicate. */
  lemma {:induction false} RunKeepsNoDuplicates(m: Memory, ops: seq<Op>)
    requires NoDuplicates(m)
    ensures NoDuplicates(ApplyAll(m, ops))
    decreases |ops|
  {
    hide Apply; hide NoDuplicates;
    if ops != [] {
      StepKeepsNoDuplicates(m, ops[0]);
      RunKeepsNoDuplicates(Apply(m, ops[0]), ops[1..]);
    }
  }

  // -- Archiving ------------------------------------------------------

  lemma {:induction false} RankAfterArchiving(goals: seq<Goal>, keep: nat, i: nat)
    requires i <= |goals|
    ensures
      Rank(Archive(goals, keep), i)
      == if Rank(goals, i) < Excess(goals, keep) then 0 else Rank(goals, i) - Excess(goals, keep)
  {
    hide Excess;
    if i > 0 { RankAfterArchiving(goals, keep, i - 1); }
  }

  lemma {:induction false} RankIsMonotone(goals: seq<Goal>, i: nat, j: nat)
    requires i <= j <= |goals|
    ensures Rank(goals, i) <= Rank(goals, j)
  {
    if i < j { RankIsMonotone(goals, i, j - 1); }
  }

  /** At most `keep` completed goals stay, exactly the later ones; no text, no order and no other status
      changes; archiving again with the same bound changes nothing. */
  lemma ArchivingKeepsTheLatest(goals: seq<Goal>, keep: nat)
    ensures
      var after := Archive(goals, keep);
      && |after| == |goals|
      && Rank(after, |after|) == (if Rank(goals, |goals|) < keep then Rank(goals, |goals|) else keep)
      && (forall i: nat | i < |goals| :: after[i].text == goals[i].text)
      && (forall i: nat | i < |goals| && !goals[i].status.Completed? :: after[i] == goals[i])
      && (forall i: nat, j: nat | i < j < |goals| && goals[i].status.Completed? && goals[j].status.Completed? ::
            after[i].status.Completed? ==> after[j].status.Completed?)
      && Archive(after, keep) == after
  {
    var after := Archive(goals, keep);
    RankAfterArchiving(goals, keep, |goals|);
    forall i: nat, j: nat | i < j < |goals| && goals[i].status.Completed? && goals[j].status.Completed?
      ensures after[i].status.Completed? ==> after[j].status.Completed?
    {
      RankIsMonotone(goals, i, j);
    }
    assert Excess(after, keep) == 0;
    assert Archive(after, keep) == after;
  }
}
