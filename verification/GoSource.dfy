/** The statement language of the lowering pass and its meaning, after the sections
    "Goto statements", "Break statements", "Continue statements", "Switch statements" and
    "For statements with range clause" of the Go Programming Language Specification.
    Expressions and simple statements are opaque functions on the store. */
module GoSource {
  import opened Iteration

  type Label = string
  type Store = map<string, int>
  type Value = int

  datatype Option<T> = None | Some(value: T)

  /** An iterator function is a resumable computation: it is resumed with the value its last
      `yield` call returned, and either yields again or finishes. `it` is its own state. */
  datatype IterStep = Yield(it: int, arg: int, st: Store) | Finish(st: Store)
  datatype Iterator = Iterator(start: Store -> (int, Store), resume: (int, bool, Store) -> IterStep)

  datatype Stmt =
    | Empty
    | Act(run: Store -> Store)
    | Block(body: seq<Item>)
    | If(cond: Store -> (bool, Store), thn: seq<Item>, els: seq<Item>)
    | For(ranged: bool, init: Store -> Store, cond: Store -> (bool, Store), post: Store -> Store, body: seq<Item>)
    | Switch(pick: Store -> (nat, Store), clauses: seq<Clause>)
    | RangeFunc(it: Iterator, bind: (int, Store) -> Store, body: seq<Item>)
    | Break
    | Continue
    | BreakTo(lab: Label)
    | ContinueTo(lab: Label)
    | Goto(lab: Label)
    | Return(result: Option<Store -> Value>)

  /** A statement of a list, with its label if it is labelled. */
  datatype Item = Item(lab: Option<Label>, stmt: Stmt)

  datatype Clause = Clause(body: seq<Item>, fallsThrough: bool)

  // ----- meaning -----

  datatype Comp =
    | Normal
    | Broke
    | Continued
    | BrokeTo(lab: Label)
    | ContinuedTo(lab: Label)
    | Jumped(lab: Label)
    | Returned(result: Option<Value>)
    | Panicked

  datatype Outcome = Diverge | Done(comp: Comp, st: Store)

  predicate HasLabel(items: seq<Item>, l: Label)
  {
    exists i :: 0 <= i < |items| && items[i].lab == Some(l)
  }

  /** The position of the statement labelled `l`. */
  ghost function IndexOf(items: seq<Item>, l: Label): (i: nat)
    requires HasLabel(items, l)
    ensures i < |items| && items[i].lab == Some(l)
  {
    var i :| 0 <= i < |items| && items[i].lab == Some(l);
    i
  }

  /** One statement; `own` is the label in front of it. */
  ghost function Exec(s: Stmt, own: Option<Label>, st: Store): Outcome
    decreases s, 3
  {
    match s
    case Empty => Done(Normal, st)
    case Act(run) => Done(Normal, run(st))
    case Block(body) => RunFrom(body, 0, st)
    case If(cond, thn, els) =>
      var (b, st1) := cond(st);
      if b then RunFrom(thn, 0, st1) else RunFrom(els, 0, st1)
    case For(_, init, _, _, _) => Loop(ForStepFn(s, own), init(st), Diverge)
    case Switch(pick, clauses) =>
      var (i, st1) := pick(st);
      RunClauses(clauses, i, st1)
    case RangeFunc(it, _, _) =>
      var (i, st1) := it.start(st);
      Loop(RangeStepFn(s, own), RangeState(i, true, Normal, st1), Diverge)
    case Break => Done(Broke, st)
    case Continue => Done(Continued, st)
    case BreakTo(l) => Done(BrokeTo(l), st)
    case ContinueTo(l) => Done(ContinuedTo(l), st)
    case Goto(l) => Done(Jumped(l), st)
    case Return(e) => Done(Returned(if e.Some? then Some(e.value(st)) else None), st)
  }

  /** A statement with its label: `break L` inside the statement labelled L ends it. */
  ghost function ExecItem(it: Item, st: Store): Outcome
    decreases it, 4
  {
    match Exec(it.stmt, it.lab, st)
    case Diverge => Diverge
    case Done(c, st1) => Done(if c.BrokeTo? && it.lab == Some(c.lab) then Normal else c, st1)
  }

  ghost predicate Resumes(c: Comp, own: Option<Label>)
  {
    c == Normal || c == Continued || (c.ContinuedTo? && own == Some(c.lab))
  }

  ghost function ForStepFn(s: Stmt, own: Option<Label>): Store -> Step<Store, Outcome>
    requires s.For?
    decreases s, 2
  {
    st => ForStep(s, own, st)
  }

  ghost function ForStep(s: Stmt, own: Option<Label>, st: Store): Step<Store, Outcome>
    requires s.For?
    decreases s, 1
  {
    var (b, st1) := s.cond(st);
    if !b then Stop(Done(Normal, st1))
    else
      match RunFrom(s.body, 0, st1)
      case Diverge => Stop(Diverge)
      case Done(c, st2) =>
        if Resumes(c, own) then Next(s.post(st2))
        else Stop(Done(if c == Broke then Normal else c, st2))
  }

  /** `go` is what the last `yield` returned; `pending` is how the loop ends once the
      iterator finishes. */
  datatype RangeState = RangeState(it: int, go: bool, pending: Comp, st: Store)

  ghost function RangeStepFn(s: Stmt, own: Option<Label>): RangeState -> Step<RangeState, Outcome>
    requires s.RangeFunc?
    decreases s, 2
  {
    r => RangeStep(s, own, r)
  }

  ghost function RangeStep(s: Stmt, own: Option<Label>, r: RangeState): Step<RangeState, Outcome>
    requires s.RangeFunc?
    decreases s, 1
  {
    match s.it.resume(r.it, r.go, r.st)
    case Finish(st1) => Stop(Done(r.pending, st1))
    case Yield(it1, arg, st1) =>
      if !r.go then Stop(Done(Panicked, st1))
      else
        match RunFrom(s.body, 0, s.bind(arg, st1))
        case Diverge => Stop(Diverge)
        case Done(c, st2) =>
          if Resumes(c, own) then Next(RangeState(it1, true, Normal, st2))
          else Next(RangeState(it1, false, if c == Broke then Normal else c, st2))
  }

  /** Clause `i` and, by fallthrough, those after it; no clause when `i` is past the end. */
  ghost function RunClauses(clauses: seq<Clause>, i: nat, st: Store): Outcome
    decreases clauses, if i < |clauses| then |clauses| - i else 0
  {
    if i >= |clauses| then Done(Normal, st)
    else
      match RunFrom(clauses[i].body, 0, st)
      case Diverge => Diverge
      case Done(c, st1) =>
        if c == Normal && clauses[i].fallsThrough then RunClauses(clauses, i + 1, st1)
        else Done(if c == Broke then Normal else c, st1)
  }

  /** A statement list runs by program counter; `goto` sets the counter when the label is in this
      list and leaves the list otherwise. */
  datatype Counter = At(pc: nat, st: Store)

  ghost function RunFrom(items: seq<Item>, pc: nat, st: Store): Outcome
    decreases items, 2
  {
    Loop(ListStepFn(items), At(pc, st), Diverge)
  }

  ghost function ListStepFn(items: seq<Item>): Counter -> Step<Counter, Outcome>
    decreases items, 1
  {
    c => ListStep(items, c)
  }

  ghost function ListStep(items: seq<Item>, at: Counter): Step<Counter, Outcome>
    decreases items, 0
  {
    if at.pc >= |items| then Stop(Done(Normal, at.st))
    else
      match ExecItem(items[at.pc], at.st)
      case Diverge => Stop(Diverge)
      case Done(c, st1) =>
        if c == Normal then Next(At(at.pc + 1, st1))
        else if c.Jumped? && HasLabel(items, c.lab) then Next(At(IndexOf(items, c.lab), st1))
        else Stop(Done(c, st1))
  }
}
