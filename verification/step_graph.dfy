/**
 One attempt of a team-task step: work, self-check, rework, the bounded recovery pass and delivery
 (src/agent/team_task_graph.py). The state a node returns is merged into the running state.
 */
module StepGraph {
  import opened Common
  import Text

  const MAX_CONSULTS: nat := 2
  const MAX_RECOVER: nat := 1
  const WORK_ERROR_CHARS: nat := 200

  // ---------------------------------------------------------------------------------------
  // The outside world
  // ---------------------------------------------------------------------------------------

  /** What the k-th call of a collaborator does: raise, or answer at some cost. */
  datatype Outcome = Raised(error: string) | Answered(text: string, cost: Option<real>)

  datatype Proposal = Proposal(colleague: string, question: string)

  /** The gate before an external write: there is none, it lets the write through, it waits, or it raises. */
  datatype Gate = NoGate | Open | Waits | Breaks

  /**
   The collaborators: what each does at the n-th call made to it, given what it is handed. Proposing
   gets the blocker ("" before the work), asking the proposal, working the answers collected so far.
   */
  datatype World = World(
    consults: bool,
    propose: (nat, string) -> Option<seq<Proposal>>,
    ask: (nat, Proposal) -> Outcome,
    work: (nat, seq<string>) -> Outcome,
    check: (nat, string) -> Option<bool>,
    rework: (nat, string) -> Outcome,
    gate: Gate,
    deliver: bool)

  /** How many calls of each kind have been made. */
  datatype Calls = Calls(propose: nat, ask: nat, work: nat, check: nat, rework: nat, recover: nat, deliver: nat)

  function Amount(c: Option<real>): real {
    if c.Some? then c.value else 0.0
  }

  /** What the first `n` calls of one kind cost: the successful ones only. */
  function Bill(calls: nat -> Outcome, n: nat): real {
    if n == 0 then 0.0
    else Bill(calls, n - 1) + if calls(n - 1).Answered? then Amount(calls(n - 1).cost) else 0.0
  }

  /** How many of the first `n` calls of one kind raised. */
  function Failures(calls: nat -> Outcome, n: nat): nat {
    if n == 0 then 0 else Failures(calls, n - 1) + if calls(n - 1).Raised? then 1 else 0
  }

  /** The non-empty answers among the calls from `lo` to `hi`, in order. */
  function Texts(calls: nat -> Outcome, lo: nat, hi: nat): seq<string> {
    if hi <= lo then []
    else Texts(calls, lo, hi - 1) + if calls(hi - 1).Answered? && calls(hi - 1).text != "" then [calls(hi - 1).text] else []
  }

  /** The first proposals, as many as the limit lets through. */
  function Taken(proposals: Option<seq<Proposal>>, limit: nat): seq<Proposal> {
    if proposals.None? then [] else if |proposals.value| < limit then proposals.value else proposals.value[..limit]
  }

  // ---------------------------------------------------------------------------------------
  // What an attempt in this world amounts to
  // ---------------------------------------------------------------------------------------

  /** The questions asked before the first pass. */
  function FirstQuestions(w: World): seq<Proposal> {
    if w.consults then Taken(w.propose(0, ""), MAX_CONSULTS) else []
  }

  function FirstAsks(w: World): nat {
    |FirstQuestions(w)|
  }

  /** What asking the k-th of these questions comes to. */
  function AnswersTo(w: World, questions: seq<Proposal>): nat -> Outcome {
    (k: nat) => if k < |questions| then w.ask(k, questions[k]) else Raised("")
  }

  function FirstAnswers(w: World): nat -> Outcome {
    AnswersTo(w, FirstQuestions(w))
  }

  /** The first pass of the work, with the answers in hand. */
  function FirstPass(w: World): Outcome {
    w.work(0, Texts(FirstAnswers(w), 0, FirstAsks(w)))
  }

  /** What a failed first pass is about. */
  function Blocker(w: World): string {
    if FirstPass(w).Raised? then WorkError(FirstPass(w).error) else ""
  }

  /** The question asked about a blocker: one, if the consult budget counts as open. */
  function RecoverQuestions(w: World): seq<Proposal> {
    if w.consults && FirstAsks(w) - Failures(FirstAnswers(w), FirstAsks(w)) < MAX_CONSULTS then Taken(w.propose(1, Blocker(w)), 1) else []
  }

  function RecoverAsks(w: World): nat {
    |RecoverQuestions(w)|
  }

  function Questions(w: World): seq<Proposal> {
    FirstQuestions(w) + RecoverQuestions(w)
  }

  /** What the k-th question of the attempt comes to. */
  function Answers(w: World): nat -> Outcome {
    AnswersTo(w, Questions(w))
  }

  lemma {:induction false} FirstAnswersAre(w: World, n: nat)
    requires n <= FirstAsks(w)
    ensures Bill(Answers(w), n) == Bill(FirstAnswers(w), n) && Failures(Answers(w), n) == Failures(FirstAnswers(w), n)
    ensures Texts(Answers(w), 0, n) == Texts(FirstAnswers(w), 0, n)
  {
    if n > 0 {
      FirstAnswersAre(w, n - 1);
      assert Questions(w)[n - 1] == FirstQuestions(w)[n - 1];
    }
  }

  /** The answer to the question about the blocker, if there is one. */
  function Hint(w: World): string {
    if RecoverAsks(w) > 0 && Answers(w)(FirstAsks(w)).Answered? then Answers(w)(FirstAsks(w)).text else ""
  }

  lemma HintIs(w: World)
    ensures Texts(Answers(w), FirstAsks(w), |Questions(w)|) == if Hint(w) != "" then [Hint(w)] else []
  {
    assert Texts(Answers(w), FirstAsks(w), FirstAsks(w)) == [];
  }

  /** The second consult, told by how many of the first questions were answered. */
  lemma SecondQuestions(w: World, answered: nat)
    requires FirstAsks(w) == answered + Failures(Answers(w), FirstAsks(w))
    ensures RecoverQuestions(w) == if w.consults && answered < MAX_CONSULTS then Taken(w.propose(1, Blocker(w)), 1) else []
    ensures |Questions(w)| == FirstAsks(w) + RecoverAsks(w) && Questions(w)[FirstAsks(w)..|Questions(w)|] == RecoverQuestions(w)
    ensures RecoverAsks(w) == 0 ==> Hint(w) == ""
  {
    FirstAnswersAre(w, FirstAsks(w));
  }

  /** The first answer of that consult is the hint. */
  lemma HintFound(w: World, lo: nat, hi: nat, answers: seq<string>)
    requires lo == FirstAsks(w) && hi == lo + RecoverAsks(w) && answers == Texts(Answers(w), lo, hi)
    ensures Hint(w) == if answers != [] then answers[0] else ""
  {
    HintIs(w);
  }

  /** What the work is handed: the first answers, and at the second pass the hint about the blocker. */
  function Handoff(w: World, pass: nat): seq<string> {
    Texts(Answers(w), 0, FirstAsks(w)) + if pass == 0 then [] else Texts(Answers(w), FirstAsks(w), |Questions(w)|)
  }

  lemma HandoffIs(w: World, pass: nat, before: seq<string>, advice: seq<string>, hint: string)
    requires if pass == 0 then before == [] && advice == Texts(Answers(w), 0, FirstAsks(w)) && hint == ""
             else before == Texts(Answers(w), 0, FirstAsks(w)) && advice == [] && hint == Hint(w)
    ensures before + advice + (if hint != "" then [hint] else []) == Handoff(w, pass)
  {
    HintIs(w);
  }

  function Works(w: World): nat -> Outcome {
    (k: nat) => w.work(k, Handoff(w, k))
  }

  lemma FirstPassIs(w: World)
    ensures Works(w)(0) == FirstPass(w)
  {
    FirstAnswersAre(w, FirstAsks(w));
    var first := Texts(FirstAnswers(w), 0, FirstAsks(w));
    assert Handoff(w, 0) == first + [] == first;
  }

  /** The text the work ends with, after one failure at most. */
  function Draft(w: World): string {
    if Works(w)(0).Answered? then Works(w)(0).text else if Works(w)(1).Answered? then Works(w)(1).text else ""
  }

  /** The text after `k` reworks. */
  function Version(w: World, k: nat): string {
    if k == 0 then Draft(w)
    else
      match w.rework(k - 1, Version(w, k - 1))
      case Answered(text, _) => text
      case Raised(_) => ""
  }

  function Reworks(w: World): nat -> Outcome {
    (k: nat) => w.rework(k, Version(w, k))
  }

  /** The first `n` versions failed their checks. */
  predicate RejectedBelow(w: World, n: nat) {
    forall j: nat :: j < n ==> w.check(j, Version(w, j)) == Some(false)
  }

  lemma RejectedNext(w: World, n: nat)
    requires RejectedBelow(w, n) && w.check(n, Version(w, n)) == Some(false)
    ensures RejectedBelow(w, n + 1)
  {
  }

  /** The questions an attempt asks in all. */
  function AsksOf(w: World): nat {
    FirstAsks(w) + if Works(w)(0).Raised? then RecoverAsks(w) else 0
  }

  /**
   The budget of two questions counts answers: exactly when one of two questions fails, the work
   then fails and the recovery has something to ask, a third question goes out.
   */
  lemma ThirdAskIff(w: World)
    ensures AsksOf(w) <= MAX_CONSULTS + MAX_RECOVER
    ensures AsksOf(w) > MAX_CONSULTS <==>
              && w.consults && FirstPass(w).Raised?
              && w.propose(0, "").Some? && |w.propose(0, "").value| >= 2
              && (w.ask(0, w.propose(0, "").value[0]).Raised? || w.ask(1, w.propose(0, "").value[1]).Raised?)
              && w.propose(1, Blocker(w)).Some? && w.propose(1, Blocker(w)).value != []
  {
    FirstPassIs(w);
    var first := FirstAnswers(w);
    assert Failures(first, 1) == if first(0).Raised? then 1 else 0;
    assert Failures(first, 2) == Failures(first, 1) + if first(1).Raised? then 1 else 0;
  }

  /** A world in which it does. */
  function CuriousWorld(): World {
    var q := Proposal("b", "?");
    World(true, (_, _) => Some([q, q]), (k, _) => if k == 0 then Raised("busy") else Answered("yes", None),
          (k, _) => if k == 0 then Raised("down") else Answered("text", None), (_, _) => Some(true),
          (_, _) => Answered("text", None), NoGate, true)
  }

  lemma ThreeAsksWitness()
    ensures AsksOf(CuriousWorld()) == 3
  {
    ThirdAskIff(CuriousWorld());
  }

  /** Everything this attempt has been charged. */
  function Charged(w: World, c: Calls): real {
    Bill(Works(w), c.work) + Bill(Reworks(w), c.rework) + Bill(Answers(w), c.ask)
  }

  function Price(o: Outcome): real {
    if o.Answered? then Amount(o.cost) else 0.0
  }

  lemma ChargedWork(w: World, c: Calls)
    ensures Charged(w, c.(work := c.work + 1)) == Charged(w, c) + Price(Works(w)(c.work))
  {
  }

  lemma ChargedRework(w: World, c: Calls)
    ensures Charged(w, c.(rework := c.rework + 1)) == Charged(w, c) + Price(Reworks(w)(c.rework))
  {
  }

  lemma NextVersion(w: World, k: nat)
    ensures Version(w, k + 1) == if Reworks(w)(k).Answered? then Reworks(w)(k).text else ""
  {
  }

  // ---------------------------------------------------------------------------------------
  // State and routes
  // ---------------------------------------------------------------------------------------

  /** `TeamStepState`: the slices the nodes read and write. */
  datatype State = State(resultText: string, cost: Option<real>, consultCount: nat, advice: seq<string>,
                         workError: string, recoverHint: string, recoverCount: nat, reworkCount: nat,
                         passed: bool, selfCheckFailed: bool)

  const FRESH := State("", None, 0, [], "", "", 0, 0, false, false)

  datatype Node = Work | SelfCheck | Rework | Recover | Deliver

  function RouteAfterWork(s: State): Node {
    if s.workError != "" then Recover else SelfCheck
  }

  function RouteAfterCheck(s: State, maxRework: int): Node {
    if s.passed then Deliver else if s.reworkCount < maxRework then Rework else Deliver
  }

  /** A sum of charges as the state stores it: zero becomes `None`. */
  function AsCost(total: real): Option<real> {
    if total == 0.0 then None else Some(total)
  }

  /** The words so far with the next character: white space only matters between words. */
  function Squeezed(words: string, afterSpace: bool, c: char): string {
    if Text.IsSpace(c) then words else if words != "" && afterSpace then words + " " + [c] else words + [c]
  }

  predicate EndsInSpace(s: string) {
    s != "" && Text.IsSpace(s[|s| - 1])
  }

  /** `" ".join(s.split())`: the words of `s`, one blank apart. */
  function Squash(s: string): (r: string)
    ensures '\n' !in r
    ensures r == "" <==> forall i :: 0 <= i < |s| ==> Text.IsSpace(s[i])
  {
    if s == "" then "" else Squeezed(Squash(s[..|s| - 1]), EndsInSpace(s[..|s| - 1]), s[|s| - 1])
  }

  /** Two lines of words joined by a blank. */
  function Joined(a: string, b: string): string {
    if a == "" then b else if b == "" then a else a + " " + b
  }

  lemma JoinedNext(a: string, b: string, afterSpace: bool, afterSpace': bool, c: char)
    requires if b == "" then afterSpace else afterSpace == afterSpace'
    ensures Squeezed(Joined(a, b), afterSpace, c) == Joined(a, Squeezed(b, afterSpace', c))
  {
    assert a + " " + (b + " " + [c]) == a + " " + b + " " + [c] && a + " " + (b + [c]) == a + " " + b + [c];
  }

  /** A word stays as it is, */
  lemma {:induction false} SquashWord(s: string)
    requires forall i :: 0 <= i < |s| ==> !Text.IsSpace(s[i])
    ensures Squash(s) == s
  {
    if s != "" { SquashWord(s[..|s| - 1]); }
  }

  lemma SquashNext(s: string, c: char)
    ensures Squash(s + [c]) == Squeezed(Squash(s), EndsInSpace(s), c)
  {
    assert (s + [c])[..|s|] == s;
  }

  lemma EndsAlike(a: string, sp: char, b: string)
    requires Text.IsSpace(sp)
    ensures if Squash(b) == "" then EndsInSpace(a + [sp] + b) else EndsInSpace(a + [sp] + b) == EndsInSpace(b)
  {
    var s := a + [sp] + b;
    assert if b == "" then s[|s| - 1] == sp else s[|s| - 1] == b[|b| - 1];
  }

  lemma JoinNext(a: string, sp: char, b: string, c: char)
    requires Text.IsSpace(sp) && Squash(a + [sp] + b) == Joined(Squash(a), Squash(b))
    ensures Squash(a + [sp] + b + [c]) == Joined(Squash(a), Squash(b + [c]))
  {
    SquashNext(a + [sp] + b, c);
    SquashNext(b, c);
    EndsAlike(a, sp, b);
    JoinedNext(Squash(a), Squash(b), EndsInSpace(a + [sp] + b), EndsInSpace(b), c);
  }

  lemma LastOff(a: string, b: string)
    requires b != ""
    ensures b[..|b| - 1] + [b[|b| - 1]] == b && a + b[..|b| - 1] + [b[|b| - 1]] == a + b
  {
  }

  /** ... and white space, however much of it, becomes one blank between the words on its sides. */
  lemma {:induction false} SquashJoin(a: string, sp: char, b: string)
    requires Text.IsSpace(sp)
    ensures Squash(a + [sp] + b) == Joined(Squash(a), Squash(b))
  {
    if b == "" {
      SquashNext(a, sp);
      assert a + [sp] + b == a + [sp];
    } else {
      SquashJoin(a, sp, b[..|b| - 1]);
      JoinNext(a, sp, b[..|b| - 1], b[|b| - 1]);
      LastOff(a + [sp], b);
    }
  }

  /** What a handled work failure leaves in the state. */
  function WorkError(error: string): (r: string)
    ensures r != "" && |r| <= WORK_ERROR_CHARS && '\n' !in r
    ensures Squash(error) != "" ==> r <= Squash(error) && (|r| < WORK_ERROR_CHARS ==> r == Squash(error))
  {
    var line := Squash(error);
    var cut := if |line| > WORK_ERROR_CHARS then line[..WORK_ERROR_CHARS] else line;
    if cut == "" then "lỗi không rõ" else cut
  }

  datatype Ending = Crashed | AwaitingApproval | Done

  function WorkBudget(maxRework: int): nat {
    if maxRework < 0 then 0 else maxRework
  }

  // ---------------------------------------------------------------------------------------
  // The nodes
  // ---------------------------------------------------------------------------------------

  class StepRun {
    const world: World
    const maxRework: int
    var state: State
    var calls: Calls

    constructor (w: World, max: int)
      ensures world == w && maxRework == max
      ensures state == FRESH && calls == Calls(0, 0, 0, 0, 0, 0, 0)
    {
      world, maxRework, state, calls := w, max, FRESH, Calls(0, 0, 0, 0, 0, 0, 0);
    }

    /** The stored cost is what has been charged, and no counter is over its ceiling. */
    ghost predicate Books()
      reads this
    {
      && Amount(state.cost) == Charged(world, calls)
      && state.consultCount <= MAX_CONSULTS && state.recoverCount <= MAX_RECOVER
      && calls.recover == state.recoverCount && calls.rework == state.reworkCount
      && state.reworkCount <= WorkBudget(maxRework)
      && Asked()
    }

    /** Every question asked was answered and counted, or failed; which were asked is settled, and so is what came of it. */
    ghost predicate Asked()
      reads this
    {
      && calls.ask == state.consultCount + Failures(Answers(world), calls.ask)
      && calls.recover <= MAX_RECOVER
      && calls.ask == (if calls.work == 0 then 0 else FirstAsks(world)) + (if calls.recover == 0 then 0 else RecoverAsks(world))
      && (calls.recover == 0 ==> calls.propose == if calls.work > 0 && world.consults then 1 else 0)
      && state.advice == (if calls.work == 0 then [] else Texts(Answers(world), 0, FirstAsks(world)))
      && state.recoverHint == (if calls.recover == 0 then "" else Hint(world))
    }

    /** One question to a colleague; a failing one is skipped. */
    method Ask(p: Proposal) returns (answer: string, cost: real, ok: bool)
      requires calls.ask < |Questions(world)| && Questions(world)[calls.ask] == p
      modifies this`calls
      ensures calls == old(calls).(ask := old(calls).ask + 1)
      ensures Bill(Answers(world), calls.ask) == Bill(Answers(world), old(calls).ask) + cost
      ensures Failures(Answers(world), calls.ask) == Failures(Answers(world), old(calls).ask) + if ok then 0 else 1
      ensures forall lo: nat :: lo <= old(calls).ask ==>
                Texts(Answers(world), lo, calls.ask) == Texts(Answers(world), lo, old(calls).ask) + if answer != "" then [answer] else []
      ensures !ok ==> answer == ""
    {
      var outcome := world.ask(calls.ask, p);
      assert outcome == Answers(world)(calls.ask);
      calls := calls.(ask := calls.ask + 1);
      match outcome {
        case Raised(_) => answer, cost, ok := "", 0.0, false;
        case Answered(text, c) => answer, cost, ok := text, Amount(c), true;
      }
    }

    /** A consult: at most `remaining` proposals are asked, and the non-empty answers are the advice. */
    method Consult(blocker: string, remaining: nat) returns (count: nat, advice: seq<string>, cost: real)
      requires var asked := Taken(world.propose(calls.propose, blocker), remaining);
               calls.ask + |asked| <= |Questions(world)| && Questions(world)[calls.ask..calls.ask + |asked|] == asked
      modifies this`calls
      ensures count <= remaining && advice == Texts(Answers(world), old(calls).ask, calls.ask)
      ensures calls == old(calls).(propose := old(calls).propose + 1,
                                   ask := old(calls).ask + |Taken(world.propose(old(calls).propose, blocker), remaining)|)
      ensures calls.ask - old(calls).ask == count + Failures(Answers(world), calls.ask) - Failures(Answers(world), old(calls).ask)
      ensures Bill(Answers(world), calls.ask) == Bill(Answers(world), old(calls).ask) + cost
    {
      count, advice, cost := 0, [], 0.0;
      var proposals := world.propose(calls.propose, blocker);
      calls := calls.(propose := calls.propose + 1);
      if proposals.None? {
        return;
      }
      ghost var taken := Taken(proposals, remaining);
      var asked := 0;
      while asked < remaining && asked < |proposals.value|
        invariant asked <= |taken| && count <= asked
        invariant calls == old(calls).(ask := old(calls).ask + asked, propose := old(calls).propose + 1)
        invariant asked == count + Failures(Answers(world), calls.ask) - Failures(Answers(world), old(calls).ask)
        invariant Bill(Answers(world), calls.ask) == Bill(Answers(world), old(calls).ask) + cost
        invariant advice == Texts(Answers(world), old(calls).ask, calls.ask)
      {
        assert Questions(world)[old(calls).ask..old(calls).ask + |taken|][asked] == taken[asked];
        var answer, c, ok := Ask(proposals.value[asked]);
        asked := asked + 1;
        cost := cost + c;
        if ok {
          count := count + 1;
          if answer != "" {
            advice := advice + [answer];
          }
        }
      }
    }

    /**
     `work`: consult on the first pass only, then do the work with all the answers in hand. A failure
     is handled once, as an error text in the state; the second one propagates.
     */
    method DoWork() returns (raised: bool)
      requires Books() && calls.work == state.recoverCount && (calls.work > 0 ==> Works(world)(0).Raised?)
      modifies this`state, this`calls
      ensures calls == old(calls).(work := old(calls).work + 1, ask := calls.ask, propose := calls.propose)
      ensures raised <==> Works(world)(old(calls).work).Raised? && old(state).recoverCount >= MAX_RECOVER
      ensures !raised ==> Books()
      ensures !raised ==> state == old(state).(resultText := state.resultText, cost := state.cost, advice := state.advice,
                                               consultCount := state.consultCount, workError := state.workError)
      ensures !raised ==> if Works(world)(old(calls).work).Raised? then state.workError == Blocker(world) != ""
                          else state.workError == "" && state.resultText == Draft(world)
      ensures raised ==> state == old(state) && calls.ask == old(calls).ask && Asked()
    {
      var count, advice, consultCost := FirstConsult();
      var handoff := state.advice + advice + if state.recoverHint != "" then [state.recoverHint] else [];
      HandoffIs(world, calls.work, state.advice, advice, state.recoverHint);
      FirstPassIs(world);
      var spent := Amount(state.cost) + consultCost;
      var outcome := world.work(calls.work, handoff);
      assert outcome == Works(world)(calls.work);
      ChargedWork(world, calls);
      calls := calls.(work := calls.work + 1);
      if outcome.Raised? && state.recoverCount >= MAX_RECOVER {
        return true;
      }
      state := state.(consultCount := state.consultCount + count, advice := state.advice + advice,
                      cost := AsCost(spent + if outcome.Answered? then Amount(outcome.cost) else 0.0),
                      workError := if outcome.Raised? then WorkError(outcome.error) else "",
                      resultText := if outcome.Answered? then outcome.text else state.resultText);
      return false;
    }

    /** The consult before the first pass; a recovery pass does not ask again. */
    method FirstConsult() returns (count: nat, advice: seq<string>, cost: real)
      requires Books() && calls.work == state.recoverCount
      modifies this`calls
      ensures state.consultCount + count <= MAX_CONSULTS
      ensures calls == if state.recoverCount == 0
                       then old(calls).(ask := FirstAsks(world), propose := if world.consults then 1 else 0)
                       else old(calls)
      ensures advice == if state.recoverCount == 0 then Texts(Answers(world), 0, FirstAsks(world)) else []
      ensures calls.ask == state.consultCount + count + Failures(Answers(world), calls.ask)
      ensures Charged(world, calls) == Charged(world, old(calls)) + cost
    {
      count, advice, cost := 0, [], 0.0;
      if world.consults && state.recoverCount == 0 && state.consultCount < MAX_CONSULTS {
        assert Questions(world)[..FirstAsks(world)] == FirstQuestions(world);
        count, advice, cost := Consult("", MAX_CONSULTS - state.consultCount);
      }
    }

    /** `recover`: at most one question about the blocker, then back to `work`. Never fails. */
    method DoRecover()
      requires Books() && state.recoverCount == 0 && calls.work > 0
      requires FirstPass(world).Raised? && state.workError == Blocker(world)
      modifies this`state, this`calls
      ensures Books()
      ensures calls == old(calls).(recover := old(calls).recover + 1, ask := calls.ask, propose := calls.propose)
      ensures state == old(state).(cost := state.cost, consultCount := state.consultCount, recoverHint := state.recoverHint,
                                   workError := "", recoverCount := old(state).recoverCount + 1)
    {
      var count, hint, cost := SecondConsult();
      calls := calls.(recover := calls.recover + 1);
      state := state.(recoverCount := state.recoverCount + 1, workError := "", recoverHint := hint,
                      consultCount := state.consultCount + count, cost := AsCost(Amount(state.cost) + cost));
    }

    /** The consult about the blocker, if any question is left; its answer is the hint. */
    method SecondConsult() returns (count: nat, hint: string, cost: real)
      requires Books() && state.recoverCount == 0 && calls.work > 0
      requires FirstPass(world).Raised? && state.workError == Blocker(world)
      modifies this`calls
      ensures calls == old(calls).(ask := FirstAsks(world) + RecoverAsks(world), propose := calls.propose)
      ensures state.consultCount + count <= MAX_CONSULTS && hint == Hint(world)
      ensures calls.ask == state.consultCount + count + Failures(Answers(world), calls.ask)
      ensures Charged(world, calls) == Charged(world, old(calls)) + cost
    {
      var answers;
      count, answers, cost := 0, [], 0.0;
      SecondQuestions(world, state.consultCount);
      if world.consults && state.consultCount < MAX_CONSULTS {
        count, answers, cost := Consult(state.workError, 1);
        HintFound(world, old(calls).ask, calls.ask, answers);
      }
      hint := if answers != [] then answers[0] else "";
    }

    /** `self_check` of the current text: a failed check with no rework left is flagged. */
    method DoSelfCheck() returns (raised: bool)
      requires Books()
      modifies this`state, this`calls
      ensures calls == old(calls).(check := old(calls).check + 1) && Books()
      ensures raised <==> world.check(old(calls).check, old(state).resultText).None?
      ensures !raised ==>
                && state == old(state).(passed := state.passed, selfCheckFailed := state.selfCheckFailed)
                && state.passed == world.check(old(calls).check, old(state).resultText).value
                && (state.selfCheckFailed <==> !state.passed && state.reworkCount >= maxRework)
    {
      var verdict := world.check(calls.check, state.resultText);
      calls := calls.(check := calls.check + 1);
      if verdict.None? {
        return true;
      }
      state := state.(passed := verdict.value, selfCheckFailed := !verdict.value && state.reworkCount >= maxRework);
      return false;
    }

    /** `rework`: one more attempt at the text. */
    method DoRework() returns (raised: bool)
      requires Books() && state.reworkCount < maxRework && state.resultText == Version(world, state.reworkCount)
      modifies this`state, this`calls
      ensures calls == old(calls).(rework := old(calls).rework + 1)
      ensures raised <==> Reworks(world)(old(calls).rework).Raised?
      ensures if raised then state == old(state) else Books()
      ensures !raised ==> state == old(state).(resultText := Version(world, state.reworkCount), cost := state.cost,
                                               reworkCount := old(state).reworkCount + 1)
    {
      var outcome := world.rework(calls.rework, state.resultText);
      assert outcome == Reworks(world)(calls.rework);
      ChargedRework(world, calls);
      NextVersion(world, calls.rework);
      calls := calls.(rework := calls.rework + 1);
      match outcome {
        case Raised(_) =>
          raised := true;
        case Answered(text, cost) =>
          state := state.(resultText := text, reworkCount := state.reworkCount + 1,
                          cost := AsCost(Amount(state.cost) + Amount(cost)));
          raised := false;
      }
    }

    /** `deliver`: a gated write that is not allowed yet ends the attempt without an artifact. */
    method DoDeliver() returns (ending: Ending)
      modifies this`calls
      ensures calls == old(calls).(deliver := calls.deliver)
      ensures ending == AwaitingApproval <==> world.gate == Waits
      ensures ending == Done <==> (world.gate == NoGate || world.gate == Open) && world.deliver
      ensures calls.deliver == old(calls).deliver + if world.gate == Waits || world.gate == Breaks then 0 else 1
    {
      match world.gate {
        case Waits =>
          return AwaitingApproval;
        case Breaks =>
          return Crashed;
        case NoGate =>
        case Open =>
      }
      calls := calls.(deliver := calls.deliver + 1);
      ending := if world.deliver then Done else Crashed;
    }

    // -------------------------------------------------------------------------------------
    // The graph
    // -------------------------------------------------------------------------------------

    /** The text of the current version, all earlier ones having failed their checks. */
    ghost predicate Written()
      reads this
    {
      && calls.work >= 1 && Works(world)(calls.work - 1).Answered?
      && state.resultText == Version(world, state.reworkCount) && RejectedBelow(world, state.reworkCount)
    }

    /** What is known when the run stands before `node`. */
    ghost predicate Before(node: Node)
      reads this
    {
      && Books()
      && calls.work == state.recoverCount + (if node == Work then 0 else 1)
      && (if node == Recover then state.workError == Blocker(world) != "" && state.recoverCount == 0 else state.workError == "")
      && (calls.work > 0 ==> (Works(world)(0).Raised? <==> node == Recover || state.recoverCount > 0))
      && calls.check == state.reworkCount + (if node == Rework || node == Deliver then 1 else 0)
      && calls.deliver == 0
      && (node == Work || node == Recover ==> calls.rework == 0)
      && (node != Work && node != Recover ==> Written())
      && (node == Rework ==> state.reworkCount < maxRework && world.check(state.reworkCount, state.resultText) == Some(false))
      && (node == Deliver ==> Graded())
    }

    /** The last check was of the current text: it passed, or the rework budget is spent. */
    ghost predicate Graded()
      reads this
    {
      && world.check(state.reworkCount, state.resultText) == Some(state.passed)
      && (state.selfCheckFailed <==> !state.passed) && (state.passed || state.reworkCount >= maxRework)
    }

    /** What one node and the edge out of it come to: a node further on, or the end. */
    twostate predicate Moves(node: Node, new next: Option<Node>, ending: Ending)
      reads this
    {
      && (next.Some? ==> node != Deliver && Before(next.value) && Smaller(next.value, node))
      && (next.None? ==> Ended(ending))
      && (next.None? && ending != Crashed ==> node == Deliver && state == old(state))
    }

    /** One node and the edge out of it. */
    method RunNode(node: Node) returns (next: Option<Node>, ending: Ending)
      requires Before(node)
      modifies this`state, this`calls
      ensures Moves(node, next, ending)
    {
      match node {
        case Work => next, ending := RunWork();
        case Recover => next, ending := RunRecover();
        case SelfCheck => next, ending := RunSelfCheck();
        case Rework => next, ending := RunRework();
        case Deliver => next, ending := RunDeliver();
      }
    }

    /** Something broke: the attempt ends without a result, within all its limits. */
    lemma EndsBroken()
      requires Asked() && Broken() && state.consultCount <= MAX_CONSULTS
      requires 0 < calls.work <= 1 + MAX_RECOVER && calls.rework <= WorkBudget(maxRework) && calls.check <= WorkBudget(maxRework) + 1
      requires Works(world)(0).Raised? <==> calls.recover > 0
      ensures Ended(Crashed)
    {
    }

    method RunWork() returns (next: Option<Node>, ending: Ending)
      requires Before(Work)
      modifies this`state, this`calls
      ensures Moves(Work, next, ending)
    {
      FirstPassIs(world);
      var raised := DoWork();
      if raised {
        return None, Crashed;
      }
      return Some(RouteAfterWork(state)), Crashed;
    }

    method RunRecover() returns (next: Option<Node>, ending: Ending)
      requires Before(Recover)
      modifies this`state, this`calls
      ensures Moves(Recover, next, ending)
    {
      FirstPassIs(world);
      DoRecover();
      next, ending := Some(Work), Crashed;
    }

    method RunSelfCheck() returns (next: Option<Node>, ending: Ending)
      requires Before(SelfCheck)
      modifies this`state, this`calls
      ensures Moves(SelfCheck, next, ending)
    {
      var raised := DoSelfCheck();
      if raised {
        EndsBroken();
        return None, Crashed;
      }
      return Some(RouteAfterCheck(state, maxRework)), Crashed;
    }

    method RunRework() returns (next: Option<Node>, ending: Ending)
      requires Before(Rework)
      modifies this`state, this`calls
      ensures Moves(Rework, next, ending)
    {
      RejectedNext(world, state.reworkCount);
      var raised := DoRework();
      if raised {
        EndsBroken();
        return None, Crashed;
      }
      return Some(SelfCheck), Crashed;
    }

    method RunDeliver() returns (next: Option<Node>, ending: Ending)
      requires Before(Deliver)
      modifies this`calls
      ensures Moves(Deliver, next, ending)
    {
      ending := DoDeliver();
      next := None;
    }

    ghost function Rank(node: Node): nat {
      match node
      case Work => 4
      case Recover => 3
      case SelfCheck => 2
      case Rework => 1
      case Deliver => 0
    }

    /** The measure every edge decreases: recoveries left, reworks left, place in the graph. */
    twostate predicate Smaller(next: Node, node: Node)
      reads this
    {
      || state.recoverCount > old(state).recoverCount
      || (state.recoverCount == old(state).recoverCount && state.reworkCount > old(state).reworkCount)
      || (state.recoverCount == old(state).recoverCount && state.reworkCount == old(state).reworkCount && Rank(next) < Rank(node))
    }

    /** What makes an attempt fail: both passes of the work, a check, a rework, the gate or the delivery. */
    ghost predicate Broken()
      reads this
    {
      || (calls.work == 1 + MAX_RECOVER && Works(world)(MAX_RECOVER).Raised?)
      || (calls.check > 0 && world.check(calls.check - 1, Version(world, calls.check - 1)).None?)
      || (calls.rework > 0 && Reworks(world)(calls.rework - 1).Raised?)
      || world.gate == Breaks || (calls.deliver == 1 && !world.deliver)
    }

    /** What every finished attempt satisfies, however the outside world behaved. */
    ghost predicate Ended(ending: Ending)
      reads this
    {
      && calls.work <= 1 + MAX_RECOVER && calls.recover <= MAX_RECOVER
      && calls.rework <= WorkBudget(maxRework) && calls.check <= WorkBudget(maxRework) + 1
      && calls.ask == AsksOf(world) && calls.ask == state.consultCount + Failures(Answers(world), calls.ask)
      && state.consultCount <= MAX_CONSULTS
      && (calls.deliver == 1 ==> ending != AwaitingApproval)
      && (ending == Done ==> calls.deliver == 1) && (ending == AwaitingApproval ==> calls.deliver == 0 && world.gate == Waits)
      && (ending == Crashed ==> Broken())
      && (ending != Crashed ==>
            && Written() && Graded() && calls.rework == state.reworkCount && calls.check == calls.rework + 1
            && calls.work == (if Works(world)(0).Raised? then 2 else 1)
            && Amount(state.cost) == Charged(world, calls))
    }

    /** A whole attempt. */
    method Run() returns (ending: Ending)
      requires state == FRESH && calls == Calls(0, 0, 0, 0, 0, 0, 0)
      modifies this`state, this`calls
      ensures Ended(ending)
    {
      var node := Work;
      while true
        invariant Before(node)
        decreases MAX_RECOVER - state.recoverCount, WorkBudget(maxRework) - state.reworkCount, Rank(node)
      {
        var next;
        next, ending := RunNode(node);
        if next.None? {
          return;
        }
        node := next.value;
      }
    }
  }
}
