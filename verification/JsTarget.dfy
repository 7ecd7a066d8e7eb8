/** The TypeScript subset the lowering pass emits, with the completion-record semantics of
    sections 14.8 (continue), 14.9 (break), 14.12 (switch) and 14.13 (labelled statements)
    of ECMA-262, and the early errors of sections 14.8.1, 14.9.1 and 14.13.1. */
module JsTarget {
  import opened Iteration
  import opened GoSource

  /** Names of labels and generated variables. Generated names carry the number the name
      supply gave them and never coincide with a label of the source. */
  datatype Name =
    | Src(lab: Label)
    | LoopName(id: nat)
    | GotoLoop(id: nat)
    | GotoState(id: nat)
    | Skip(id: nat)
    | RangeReturn(id: nat)
    | RangeReturnValue(id: nat)

  datatype Val = Undefined | Str(s: string) | Bool(b: bool) | Num(n: Value)

  /** `user` is the program's own store; `vars` holds the generated variables. */
  datatype JState = JState(user: Store, vars: map<Name, Val>)

  datatype RetExpr = RetVoid | RetBool(b: bool) | RetVal(e: Store -> Value) | RetVar(v: Name)

  /** What a `switch` inspects: an expression of the program, or a generated variable
      compared with string cases. */
  datatype Selector = ByStore(pick: Store -> (nat, Store)) | ByVar(v: Name, values: seq<string>)

  datatype JS =
    | JAct(run: Store -> Store)
    | JSet(v: Name, x: Val)
    | JSetResult(v: Name, e: Store -> Value)
    | JCopy(dst: Name, src: Name)
    | JBlock(body: seq<JS>)
    | JIf(cond: Store -> (bool, Store), thn: seq<JS>, els: seq<JS>)
    | JIfVar(v: Name, want: bool, thn: seq<JS>)
    | JLabeled(l: Name, stmt: JS)
    | JLoop(init: Store -> Store, cond: Store -> (bool, Store), post: Store -> Store, body: seq<JS>)
    | JSwitch(sel: Selector, cases: seq<JCase>)
    | JCallRange(it: Iterator, bind: (int, Store) -> Store, body: seq<JS>)
    | JBreak
    | JContinue
    | JBreakTo(l: Name)
    | JContinueTo(l: Name)
    | JReturn(ret: RetExpr)

  datatype JCase = JCase(body: seq<JS>)

  const FOREVER: Store -> (bool, Store) := st => (true, st)
  const NOTHING: Store -> Store := st => st

  // ----- meaning -----

  /** `Illegal` stands for a branch that tries to leave a function body. */
  datatype JComp =
    | JNormal
    | JBroke
    | JContinued
    | JBrokeTo(l: Name)
    | JContinuedTo(l: Name)
    | JReturned(x: Val)
    | Illegal

  datatype JOutcome = JDiverge | JDone(comp: JComp, ts: JState)

  function Lookup(vars: map<Name, Val>, v: Name): Val
  {
    if v in vars then vars[v] else Undefined
  }

  function RetValue(e: RetExpr, ts: JState): Val
  {
    match e
    case RetVoid => Undefined
    case RetBool(b) => Bool(b)
    case RetVal(f) => Num(f(ts.user))
    case RetVar(v) => Lookup(ts.vars, v)
  }

  /** The first index from `i` on whose value is `x`, or `|values|`. */
  function FirstCase(values: seq<string>, x: Val, i: nat): (k: nat)
    requires i <= |values|
    ensures i <= k <= |values|
    ensures k < |values| ==> Str(values[k]) == x
    ensures forall j :: i <= j < k ==> Str(values[j]) != x
    decreases |values| - i
  {
    if i == |values| || Str(values[i]) == x then i else FirstCase(values, x, i + 1)
  }

  function PickCase(sel: Selector, ts: JState): (nat, JState)
  {
    match sel
    case ByStore(pick) => var (i, st) := pick(ts.user); (i, ts.(user := st))
    case ByVar(v, values) => (FirstCase(values, Lookup(ts.vars, v), 0), ts)
  }

  /** One statement; `labels` is the set of labels in front of it (section 14.13). */
  ghost function JExec(s: JS, labels: set<Name>, ts: JState): JOutcome
    decreases s, 3
  {
    match s
    case JAct(run) => JDone(JNormal, ts.(user := run(ts.user)))
    case JSet(v, x) => JDone(JNormal, ts.(vars := ts.vars[v := x]))
    case JSetResult(v, e) => JDone(JNormal, ts.(vars := ts.vars[v := Num(e(ts.user))]))
    case JCopy(dst, src) => JDone(JNormal, ts.(vars := ts.vars[dst := Lookup(ts.vars, src)]))
    case JBlock(body) => JRun(body, ts)
    case JIf(cond, thn, els) =>
      var (b, st) := cond(ts.user);
      JRun(if b then thn else els, ts.(user := st))
    case JIfVar(v, want, thn) =>
      if (Lookup(ts.vars, v) == Bool(true)) == want then JRun(thn, ts) else JDone(JNormal, ts)
    case JLabeled(l, body) =>
      (match JExec(body, labels + {l}, ts)
       case JDiverge => JDiverge
       case JDone(c, ts1) => JDone(if c == JBrokeTo(l) then JNormal else c, ts1))
    case JLoop(init, _, _, _) => Loop(JLoopStepFn(s, labels), ts.(user := init(ts.user)), JDiverge)
    case JSwitch(sel, cases) =>
      var (i, ts1) := PickCase(sel, ts);
      JRunCases(cases, i, ts1)
    case JCallRange(it, _, _) =>
      var (i, st1) := it.start(ts.user);
      Loop(JRangeStepFn(s), JRangeState(i, true, ts.(user := st1)), JDiverge)
    case JBreak => JDone(JBroke, ts)
    case JContinue => JDone(JContinued, ts)
    case JBreakTo(l) => JDone(JBrokeTo(l), ts)
    case JContinueTo(l) => JDone(JContinuedTo(l), ts)
    case JReturn(e) => JDone(JReturned(RetValue(e, ts)), ts)
  }

  ghost function JRun(ss: seq<JS>, ts: JState): JOutcome
    decreases ss, 2
  {
    if ss == [] then JDone(JNormal, ts)
    else
      match JExec(ss[0], {}, ts)
      case JDiverge => JDiverge
      case JDone(c, ts1) => if c == JNormal then JRun(ss[1..], ts1) else JDone(c, ts1)
  }

  /** LoopContinues of section 14.7.1.1. */
  ghost predicate JResumes(c: JComp, labels: set<Name>)
  {
    c == JNormal || c == JContinued || (c.JContinuedTo? && c.l in labels)
  }

  ghost function JLoopStepFn(s: JS, labels: set<Name>): JState -> Step<JState, JOutcome>
    requires s.JLoop?
    decreases s, 2
  {
    ts => JLoopStep(s, labels, ts)
  }

  ghost function JLoopStep(s: JS, labels: set<Name>, ts: JState): Step<JState, JOutcome>
    requires s.JLoop?
    decreases s, 1
  {
    var (b, st) := s.cond(ts.user);
    if !b then Stop(JDone(JNormal, ts.(user := st)))
    else
      match JRun(s.body, ts.(user := st))
      case JDiverge => Stop(JDiverge)
      case JDone(c, ts2) =>
        if JResumes(c, labels) then Next(ts2.(user := s.post(ts2.user)))
        else Stop(JDone(if c == JBroke then JNormal else c, ts2))
  }

  ghost function JRunCases(cases: seq<JCase>, i: nat, ts: JState): JOutcome
    decreases cases, if i < |cases| then |cases| - i else 0
  {
    if i >= |cases| then JDone(JNormal, ts)
    else
      match JRun(cases[i].body, ts)
      case JDiverge => JDiverge
      case JDone(c, ts1) =>
        if c == JNormal then JRunCases(cases, i + 1, ts1)
        else JDone(if c == JBroke then JNormal else c, ts1)
  }

  /** `;(() => { f!((args) => { body }) })()`: the iterator is resumed with what the callback returned. */
  datatype JRangeState = JRangeState(it: int, go: bool, ts: JState)

  ghost function JRangeStepFn(s: JS): JRangeState -> Step<JRangeState, JOutcome>
    requires s.JCallRange?
    decreases s, 2
  {
    r => JRangeStep(s, r)
  }

  ghost function JRangeStep(s: JS, r: JRangeState): Step<JRangeState, JOutcome>
    requires s.JCallRange?
    decreases s, 1
  {
    match s.it.resume(r.it, r.go, r.ts.user)
    case Finish(st1) => Stop(JDone(JNormal, r.ts.(user := st1)))
    case Yield(it1, arg, st1) =>
      match JRun(s.body, r.ts.(user := s.bind(arg, st1)))
      case JDiverge => Stop(JDiverge)
      case JDone(c, ts2) =>
        if c.JReturned? then Next(JRangeState(it1, c.x == Bool(true), ts2))
        else if c == JNormal then Next(JRangeState(it1, false, ts2))
        else Stop(JDone(Illegal, ts2))
  }

  // ----- early errors -----

  /** What encloses a statement within its function: the labels `break` and `continue` may
      name, and whether a plain `break` or `continue` has a target. No label stands inside a
      statement with the same label. */
  datatype Env = Env(breaks: set<Name>, continues: set<Name>, breakable: bool, loop: bool)

  const OUTSIDE: Env := Env({}, {}, false, false)

  predicate Legal(s: JS, labels: set<Name>, env: Env)
    decreases s, 1
  {
    match s
    case JBlock(body) => LegalSeq(body, env)
    case JIf(_, thn, els) => LegalSeq(thn, env) && LegalSeq(els, env)
    case JIfVar(_, _, thn) => LegalSeq(thn, env)
    case JLabeled(l, body) => l !in env.breaks && Legal(body, labels + {l}, env.(breaks := env.breaks + {l}))
    case JLoop(_, _, _, body) => LegalSeq(body, Env(env.breaks, env.continues + labels, true, true))
    case JSwitch(_, cases) => forall k :: 0 <= k < |cases| ==> LegalSeq(cases[k].body, env.(breakable := true))
    case JCallRange(_, _, body) => LegalSeq(body, OUTSIDE)
    case JBreak => env.breakable
    case JContinue => env.loop
    case JBreakTo(l) => l in env.breaks
    case JContinueTo(l) => l in env.continues
    case _ => true
  }

  predicate LegalSeq(ss: seq<JS>, env: Env)
    decreases ss, 0
  {
    forall k :: 0 <= k < |ss| ==> Legal(ss[k], {}, env)
  }

  // ----- a legal statement only completes toward something that encloses it -----

  predicate Lands(r: JOutcome, labels: set<Name>, env: Env)
  {
    r.JDone? ==>
      match r.comp
      case JBroke => env.breakable
      case JContinued => env.loop
      case JBrokeTo(l) => l in env.breaks
      case JContinuedTo(l) => l in env.continues
      case Illegal => false
      case _ => true
  }

  lemma {:induction false} LegalLands(s: JS, labels: set<Name>, env: Env, ts: JState)
    requires Legal(s, labels, env)
    ensures Lands(JExec(s, labels, ts), labels, env)
    decreases s, 1
  {
    match s
    case JBlock(body) => LegalSeqLands(body, env, ts);
    case JIf(cond, thn, els) =>
      LegalSeqLands(thn, env, ts.(user := cond(ts.user).1));
      LegalSeqLands(els, env, ts.(user := cond(ts.user).1));
    case JIfVar(_, _, thn) => LegalSeqLands(thn, env, ts);
    case JLabeled(l, body) => LegalLands(body, labels + {l}, env.(breaks := env.breaks + {l}), ts);
    case JLoop(init, _, _, body) =>
      var step, inv, post := JLoopStepFn(s, labels), (x: JState) => true, (r: JOutcome) => Lands(r, labels, env);
      forall x: JState ensures Keeps(step, inv, post, x) { JLoopStepLands(s, labels, env, x); }
      LoopInvariant(step, ts.(user := init(ts.user)), JDiverge, inv, post);
    case JSwitch(sel, cases) =>
      LegalCasesLand(cases, env, PickCase(sel, ts).0, PickCase(sel, ts).1);
    case JCallRange(it, bind, body) =>
      var step, inv, post := JRangeStepFn(s), (x: JRangeState) => true, (r: JOutcome) => Lands(r, labels, env);
      var (i, st1) := it.start(ts.user);
      forall x: JRangeState ensures Keeps(step, inv, post, x) { JRangeStepLands(s, labels, env, x); }
      LoopInvariant(step, JRangeState(i, true, ts.(user := st1)), JDiverge, inv, post);
    case _ =>
  }

  lemma {:induction false} JLoopStepLands(s: JS, labels: set<Name>, env: Env, ts: JState)
    requires s.JLoop? && Legal(s, labels, env)
    ensures JLoopStep(s, labels, ts).Stop? ==> Lands(JLoopStep(s, labels, ts).r, labels, env)
    decreases s, 0
  {
    LegalSeqLands(s.body, Env(env.breaks, env.continues + labels, true, true), ts.(user := s.cond(ts.user).1));
  }

  lemma {:induction false} JRangeStepLands(s: JS, labels: set<Name>, env: Env, r: JRangeState)
    requires s.JCallRange? && Legal(s, labels, env)
    ensures JRangeStep(s, r).Stop? ==> Lands(JRangeStep(s, r).r, labels, env)
    decreases s, 0
  {
    match s.it.resume(r.it, r.go, r.ts.user)
    case Finish(_) =>
    case Yield(_, arg, st1) => LegalSeqLands(s.body, OUTSIDE, r.ts.(user := s.bind(arg, st1)));
  }

  lemma {:induction false} LegalSeqLands(ss: seq<JS>, env: Env, ts: JState)
    requires LegalSeq(ss, env)
    ensures Lands(JRun(ss, ts), {}, env)
    decreases ss, 0
  {
    if ss != [] {
      LegalLands(ss[0], {}, env, ts);
      var r := JExec(ss[0], {}, ts);
      if r.JDone? && r.comp == JNormal {
        LegalSeqLands(ss[1..], env, r.ts);
      }
    }
  }

  lemma {:induction false} LegalCasesLand(cases: seq<JCase>, env: Env, i: nat, ts: JState)
    requires forall k :: 0 <= k < |cases| ==> LegalSeq(cases[k].body, env.(breakable := true))
    ensures Lands(JRunCases(cases, i, ts), {}, env)
    decreases cases, if i < |cases| then |cases| - i else 0
  {
    if i < |cases| {
      LegalSeqLands(cases[i].body, env.(breakable := true), ts);
      var r := JRun(cases[i].body, ts);
      if r.JDone? && r.comp == JNormal {
        LegalCasesLand(cases, env, i + 1, r.ts);
      }
    }
  }

  /** Statements in sequence. */
  lemma {:induction false} JRunConcat(a: seq<JS>, b: seq<JS>, ts: JState)
    ensures JRun(a + b, ts) ==
            match JRun(a, ts)
            case JDiverge => JDiverge
            case JDone(c, ts1) => if c == JNormal then JRun(b, ts1) else JDone(c, ts1)
    decreases |a|
  {
    if a == [] {
      assert a + b == b;
    } else {
      assert (a + b)[1..] == a[1..] + b;
      var r := JExec(a[0], {}, ts);
      if r.JDone? && r.comp == JNormal {
        JRunConcat(a[1..], b, r.ts);
      }
    }
  }
}
