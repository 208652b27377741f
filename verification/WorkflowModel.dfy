// Values, stage definitions and the recorded tree of one workflow run.
module WorkflowModel {
  import opened Options
  import opened Addresses

  // JSON-like slot values. The last five are the shapes the engine itself builds.
  datatype Value =
    | Null
    | Text(text: string)
    | ListOf(elements: seq<Value>)
    | Record(fields: map<Name, Value>)
    | Entry(input: Value, success: bool, result: map<Name, Value>)
    | Aggregate(items: seq<Value>)
    | Tally(total: nat, succeeded: nat, failed: nat)
    | Decision(holds: bool, target: Name)

  // The shared slot registry.
  type Slots = map<Name, Value>

  // Outcome of evaluating a condition; Broken is a condition that cannot be evaluated at all.
  datatype Truth = Holds | Fails | Broken

  type Condition = Slots -> Truth

  // What a stage runner does, for the given invocation number and slots.
  datatype ActionResult = Done(value: Value) | Raise | Abort

  type Action = (nat, Slots) -> ActionResult

  // Work covers every atomic runner: llm and agent stages (output is the stage name), coordinator
  // stages (output is action_output, None when empty) and respond stages (no output). A nested
  // workflow runs its own stage list over a registry seeded from the caller's; its limit bounds the
  // dispatches of one such run.
  datatype StageDef =
    | Work(name: Name, included: bool, condition: Condition, output: Option<Name>, action: Action)
    | Branch(name: Name, choice: Condition, ifTrue: Name, ifFalse: Name)
    | Loop(name: Name, included: bool, over: Option<Slots -> Option<seq<Value>>>, itemVar: Name,
           entry: Condition, exit: Condition, maxRetries: nat, abortOnMaxRetries: bool,
           onRetry: seq<(Name, Slots -> Value)>, output: Option<Name>, assumeIndependent: bool,
           inner: seq<StageDef>)
    | Nested(name: Name, included: bool, condition: Condition, seed: Slots -> Option<Slots>, limit: nat,
             stages: seq<StageDef>)

  datatype Status = Running | Succeeded | Skipped | Failed | Halted

  // Identity of the loop item and attempt a stage runs for.
  datatype LoopContext = LoopContext(item: nat, itemTotal: nat, attempt: nat, attemptTotal: nat)

  // meta.json, attempt_N.json and item_result.json.
  datatype Meta = Meta(status: Status, attemptCount: nat, sequence: nat)
  datatype Attempt = Attempt(invocation: nat, context: Option<LoopContext>, status: Status, result: Value)
  datatype ItemRecord = ItemRecord(number: nat, total: nat, success: bool, status: Status,
                                   attemptsUsed: nat, result: Value)

  // The files of one directory, and the whole run directory keyed by address.
  datatype Node = Node(meta: Option<Meta>, attempts: map<nat, Attempt>, item: Option<ItemRecord>)
  type Disk = map<Address, Node>

  datatype Event =
    | StageEnter(at: Address, count: nat, context: Option<LoopContext>)
    | StageExit(at: Address, count: nat, status: Status, result: Value)
    | ItemExit(at: Address, record: ItemRecord)

  // The run directory with the recorder's next free sequence number of every parent directory.
  datatype Tree = Tree(disk: Disk, nextSequence: map<Address, nat>)

  function NodeAt(d: Disk, a: Address): Node
  {
    if a in d then d[a] else Node(None, map[], None)
  }

  function Parent(a: Address): Address
  {
    if a == [] then [] else a[..|a| - 1]
  }

  function NextSequence(t: Tree, parent: Address): nat
  {
    if parent in t.nextSequence then t.nextSequence[parent] else 0
  }

  function AttemptNumber(context: Option<LoopContext>): nat
  {
    if context.Some? then context.value.attempt else 1
  }

  // meta.json: an address keeps the sequence number of its first write.
  function WriteMeta(t: Tree, at: Address, status: Status, context: Option<LoopContext>): Tree
  {
    var node := NodeAt(t.disk, at);
    var first := node.meta.None?;
    var sequence := if first then NextSequence(t, Parent(at)) else node.meta.value.sequence;
    Tree(t.disk[at := node.(meta := Some(Meta(status, AttemptNumber(context), sequence)))],
         if first then t.nextSequence[Parent(at) := sequence + 1] else t.nextSequence)
  }

  function WriteAttempt(t: Tree, at: Address, number: nat, attempt: Attempt): Tree
  {
    var node := NodeAt(t.disk, at);
    t.(disk := t.disk[at := node.(attempts := node.attempts[number := attempt])])
  }

  function WriteItem(t: Tree, at: Address, record: ItemRecord): Tree
  {
    var node := NodeAt(t.disk, at);
    t.(disk := t.disk[at := node.(item := Some(record))])
  }

  function OnStageEnter(t: Tree, at: Address, context: Option<LoopContext>): Tree
  {
    WriteMeta(t, at, Running, context)
  }

  function OnStageExit(t: Tree, at: Address, count: nat, context: Option<LoopContext>, status: Status,
                       result: Value): Tree
  {
    WriteAttempt(WriteMeta(t, at, status, context), at, AttemptNumber(context),
                 Attempt(count, context, status, result))
  }
}
