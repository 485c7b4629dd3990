/**
 * The in-memory task store of `task-manager.mjs`: a module-level list of task
 * records, a counter that hands out the next id, two input validators and the
 * add, update and delete operations that change the list in place.
 *
 * Each console message the source prints on an early return or on success is
 * an `Outcome` value here. The clock (`new Date().toISOString()`) is a
 * parameter: every call that reads it receives the reading as an argument.
 */
module TaskManager {
  import opened Wrappers
  import opened Text

  /** An ISO-8601 instant, as the clock renders it; the model never inspects it. */
  type Timestamp = string

  datatype Status = Todo | InProgress | Done

  datatype Task = Task(id: nat, description: string, status: Status, createdAt: Timestamp, updatedAt: Timestamp)

  /** What an operation reports instead of logging it. */
  datatype Outcome =
    | Created(task: Task)
    | Updated(task: Task)
    | Deleted(id: nat)
    | NotFound(id: nat)
    | InvalidDescription
    | InvalidId

  /** `validateDescription`: present (not `undefined`) and not blank once trimmed. */
  predicate ValidDescription(description: Option<string>) {
    description.Some? && Trim(description.value) != []
  }

  /** `validateId`: the id's text matches `^[0-9]+$`; `undefined` renders as "undefined" and fails. */
  predicate ValidId(id: Option<string>) {
    id.Some? && IsDigits(id.value)
  }

  /** `parseInt(id)` on an id that passed `validateId`. */
  function ParseId(id: Option<string>): nat
    requires ValidId(id)
  {
    ParseDigits(id.value)
  }

  /** A description is accepted exactly when it is present and holds at least one non-whitespace character. */
  lemma ValidDescriptionIff(description: Option<string>)
    ensures ValidDescription(description) <==>
      description.Some? && exists k :: 0 <= k < |description.value| && !IsWhitespace(description.value[k])
  {
    if description.Some? {
      TrimEmptyIff(description.value);
    }
  }

  /** Every task id the program can print is accepted back as an id and parses to that task's id. */
  lemma IdTextRoundTrip(n: nat)
    ensures ValidId(Some(NatToString(n)))
    ensures ParseId(Some(NatToString(n))) == n
  {
    ParseNatToString(n);
  }

  /** Ids are compared as numbers: a leading zero addresses the same task. */
  lemma LeadingZeroSameId(s: string)
    requires ValidId(Some(s))
    ensures ValidId(Some("0" + s)) && ParseId(Some("0" + s)) == ParseId(Some(s))
  {
    ParseLeadingZero(s);
  }

  /** `Array.prototype.findIndex(task => task.id === id)`: the first position holding `id`, if any. */
  function FindIndex(tasks: seq<Task>, id: nat): (r: Option<nat>)
    ensures r.Some? ==> r.value < |tasks| && tasks[r.value].id == id
    ensures r.Some? ==> forall k :: 0 <= k < r.value ==> tasks[k].id != id
    ensures r.None? ==> forall k :: 0 <= k < |tasks| ==> tasks[k].id != id
  {
    if |tasks| == 0 then None
    else if tasks[0].id == id then Some(0)
    else match FindIndex(tasks[1..], id)
      case None => None
      case Some(i) => Some(i + 1)
  }

  /** The counter's start value: the largest id plus one, or 1 when there are no tasks. */
  function InitialNextId(tasks: seq<Task>): (r: nat)
    ensures r >= 1
    ensures forall k :: 0 <= k < |tasks| ==> tasks[k].id < r
    ensures tasks == [] ==> r == 1
    ensures tasks != [] ==> exists k :: 0 <= k < |tasks| && tasks[k].id == r - 1
  {
    if |tasks| == 0 then 1
    else
      var rest := InitialNextId(tasks[1..]);
      if tasks[0].id + 1 >= rest then tasks[0].id + 1 else rest
  }

  predicate IdsBelow(tasks: seq<Task>, bound: nat) {
    forall k :: 0 <= k < |tasks| ==> tasks[k].id < bound
  }

  predicate UniqueIds(tasks: seq<Task>) {
    forall i, j :: 0 <= i < j < |tasks| ==> tasks[i].id != tasks[j].id
  }

  /** The list the module starts with. */
  const SeedTasks: seq<Task> :=
    [Task(1, "first task", Todo, "2024-11-01T20:49:09.598Z", "2024-11-01T20:49:09.598Z")]

  /** The list the module starts with has unique ids and starts the counter at 2. */
  lemma SeedIsWellFormed()
    ensures UniqueIds(SeedTasks)
    ensures InitialNextId(SeedTasks) == 2
  {
  }

  /** The module state: the task list and the id counter. */
  class TaskStore {
    var tasks: seq<Task>
    var nextId: nat

    /** The counter is positive and above every id in the list, so it never names a stored task. */
    ghost predicate Valid()
      reads this
    {
      1 <= nextId && IdsBelow(tasks, nextId)
    }

    /** Loading the module: the list is `seed` and the counter starts above its largest id. */
    constructor (seed: seq<Task>)
      ensures Valid()
      ensures tasks == seed && nextId == InitialNextId(seed)
    {
      tasks := seed;
      nextId := InitialNextId(seed);
    }

    /** `getTasks`: the current list, unchanged. */
    method GetTasks() returns (r: seq<Task>)
      ensures r == tasks
    {
      r := tasks;
    }

    /** `addTask`: append a task with the next id, the trimmed description and status todo. */
    method AddTask(description: Option<string>, createdAt: Timestamp, updatedAt: Timestamp) returns (outcome: Outcome)
      requires Valid()
      modifies this
      ensures Valid()
      ensures !ValidDescription(description) ==>
        outcome == InvalidDescription && tasks == old(tasks) && nextId == old(nextId)
      ensures ValidDescription(description) ==>
        outcome == Created(Task(old(nextId), Trim(description.value), Todo, createdAt, updatedAt)) &&
        tasks == old(tasks) + [outcome.task] && nextId == old(nextId) + 1
      ensures UniqueIds(old(tasks)) ==> UniqueIds(tasks)
    {
      if !ValidDescription(description) {
        return InvalidDescription;
      }
      var task := Task(nextId, Trim(description.value), Todo, createdAt, updatedAt);
      nextId := nextId + 1;
      tasks := tasks + [task];
      outcome := Created(task);
    }

    /**
     * `updateTask`: the id is checked before the description; the first task
     * with the parsed id gets the trimmed description, status todo and the new
     * update time.
     */
    method UpdateTask(id: Option<string>, description: Option<string>, now: Timestamp) returns (outcome: Outcome)
      requires Valid()
      modifies this
      ensures Valid() && nextId == old(nextId)
      ensures !ValidId(id) ==> outcome == InvalidId && tasks == old(tasks)
      ensures ValidId(id) && !ValidDescription(description) ==>
        outcome == InvalidDescription && tasks == old(tasks)
      ensures ValidId(id) && ValidDescription(description) && FindIndex(old(tasks), ParseId(id)).None? ==>
        outcome == NotFound(ParseId(id)) && tasks == old(tasks)
      ensures ValidId(id) && ValidDescription(description) && FindIndex(old(tasks), ParseId(id)).Some? ==>
        var i := FindIndex(old(tasks), ParseId(id)).value;
        var task := old(tasks)[i].(description := Trim(description.value), status := Todo, updatedAt := now);
        outcome == Updated(task) && tasks == old(tasks)[i := task]
      ensures UniqueIds(old(tasks)) ==> UniqueIds(tasks)
    {
      if !ValidId(id) {
        return InvalidId;
      }
      if !ValidDescription(description) {
        return InvalidDescription;
      }
      var n := ParseId(id);
      var found := FindIndex(tasks, n);
      if found.None? {
        return NotFound(n);
      }
      var i := found.value;
      var task := tasks[i].(description := Trim(description.value), status := Todo, updatedAt := now);
      tasks := tasks[i := task];
      outcome := Updated(task);
    }

    /** `deleteTask`: the first task with the parsed id is spliced out; the counter is left as it is. */
    method DeleteTask(id: Option<string>) returns (outcome: Outcome)
      requires Valid()
      modifies this
      ensures Valid() && nextId == old(nextId)
      ensures !ValidId(id) ==> outcome == InvalidId && tasks == old(tasks)
      ensures ValidId(id) && FindIndex(old(tasks), ParseId(id)).None? ==>
        outcome == NotFound(ParseId(id)) && tasks == old(tasks)
      ensures ValidId(id) && FindIndex(old(tasks), ParseId(id)).Some? ==>
        var i := FindIndex(old(tasks), ParseId(id)).value;
        outcome == Deleted(ParseId(id)) && tasks == old(tasks)[..i] + old(tasks)[i + 1..]
      ensures UniqueIds(old(tasks)) ==> UniqueIds(tasks)
      ensures UniqueIds(old(tasks)) && outcome.Deleted? ==> FindIndex(tasks, outcome.id).None?
      ensures outcome.Deleted? ==> outcome.id < nextId
    {
      if !ValidId(id) {
        return InvalidId;
      }
      var n := ParseId(id);
      var found := FindIndex(tasks, n);
      if found.None? {
        return NotFound(n);
      }
      var i := found.value;
      ghost var before := tasks;
      tasks := tasks[..i] + tasks[i + 1..];
      outcome := Deleted(n);
      assert forall k :: 0 <= k < |tasks| ==> tasks[k] == before[if k < i then k else k + 1];
    }
  }

  /**
   * A deleted id is never handed out again: a later add issues a different,
   * larger id. This holds over a whole run, not only right after the delete:
   * `DeleteTask` leaves the deleted id below the counter, and no method ever
   * lowers the counter (`AddTask` raises it by one, the others keep it).
   */
  method DeleteThenAdd(store: TaskStore, id: Option<string>, description: Option<string>, createdAt: Timestamp, updatedAt: Timestamp)
    returns (deleted: Outcome, added: Outcome)
    requires store.Valid()
    modifies store
    ensures store.Valid()
    ensures deleted.Deleted? && added.Created? ==> added.task.id > deleted.id
  {
    deleted := store.DeleteTask(id);
    added := store.AddTask(description, createdAt, updatedAt);
  }
}
