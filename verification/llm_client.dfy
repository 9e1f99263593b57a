/**
 One chat completion over a chain of models (src/llm/client.py, src/llm/fallback_policy.py): the
 budget gate before every attempt, the bounded retry of one model, the fallback to the next.
 */
module LlmClients {
  import opened Common
  import opened Budget
  import Text

  const MAX_RETRIES: nat := 2

  /** The failures of a call, as far as the retry and the fallback tell them apart. */
  datatype Failure =
    | BudgetExceeded
    | Timeout
    | Connection
    | RateLimit
    | Status(code: int)
    | ProviderExhausted
    | BadCost
    | Other

  /** What one request to the provider comes to. */
  datatype Response = Answer(content: string, cost: Option<real>) | Error(failure: Failure)

  /** A 429 is a status error too; the SDK raises it under its own name. */
  predicate Retryable(f: Failure) {
    f == Timeout || f == Connection || f == RateLimit
  }

  /** `should_try_next_model`. */
  predicate ShouldTryNext(f: Failure) {
    match f
    case BudgetExceeded => false
    case Status(code) => code != 401 && code != 403
    case Timeout => true
    case Connection => true
    case RateLimit => true
    case ProviderExhausted => true
    case BadCost => false
    case Other => false
  }

  predicate BlankText(s: string) {
    Text.Strip(s) == ""
  }

  /** The provider (by place in the chain and attempt) and the month at each check and each record. */
  datatype World = World(request: (nat, nat) -> Response, checkMonth: nat -> string, recordMonth: nat -> string)

  // ---------------------------------------------------------------------------------------
  // One model
  // ---------------------------------------------------------------------------------------

  /** The first attempt from `k` on that is not a transient failure, or exhaustion. */
  function Called(w: World, i: nat, k: nat): Response
    requires k <= MAX_RETRIES + 1
    decreases MAX_RETRIES + 1 - k
  {
    if k > MAX_RETRIES then Error(ProviderExhausted)
    else
      match w.request(i, k)
      case Answer(_, _) => w.request(i, k)
      case Error(f) => if Retryable(f) then Called(w, i, k + 1) else Error(f)
  }

  /** `_call_with_retry`; `asked` counts the requests made. */
  method CallWithRetry(w: World, i: nat) returns (r: Response, asked: nat)
    ensures r == Called(w, i, 0) && asked <= MAX_RETRIES + 1
    ensures forall k :: 0 <= k < asked - 1 ==> w.request(i, k).Error? && Retryable(w.request(i, k).failure)
  {
    asked := 0;
    while asked <= MAX_RETRIES
      invariant asked <= MAX_RETRIES + 1 && Called(w, i, 0) == Called(w, i, asked)
      invariant forall k :: 0 <= k < asked ==> w.request(i, k).Error? && Retryable(w.request(i, k).failure)
    {
      r := w.request(i, asked);
      if r.Answer? || !Retryable(r.failure) {
        asked := asked + 1;
        return;
      }
      asked := asked + 1;
    }
    r := Error(ProviderExhausted);
  }

  // ---------------------------------------------------------------------------------------
  // The chain
  // ---------------------------------------------------------------------------------------

  datatype Completion = Served(place: nat, content: string) | Failed(failure: Failure)

  /** What completing from model `i` on comes to, and what it leaves in the budget files. */
  datatype Result = Result(completion: Completion, totals: map<string, real>)

  function Walk(w: World, n: nat, cap: real, i: nat, totals: map<string, real>): Result
    requires i < n
    decreases n - i
  {
    if cap > 0.0 && SpentIn(totals, w.checkMonth(i)) >= cap then Result(Failed(BudgetExceeded), totals)
    else
      match Called(w, i, 0)
      case Error(f) =>
        if i + 1 < n && ShouldTryNext(f) then Walk(w, n, cap, i + 1, totals) else Result(Failed(f), totals)
      case Answer(content, cost) =>
        if cost.Some? && cost.value < 0.0 then Result(Failed(BadCost), totals)
        else
          var after := Recorded(totals, w.recordMonth(i), cost);
          if BlankText(content) && i + 1 < n then Walk(w, n, cap, i + 1, after) else Result(Served(i, content), after)
  }

  /** Model `k` hands over to the next one: it failed eligibly, or answered blank. */
  predicate Skipped(w: World, k: nat) {
    match Called(w, k, 0)
    case Error(f) => ShouldTryNext(f)
    case Answer(content, cost) => BlankText(content) && !(cost.Some? && cost.value < 0.0)
  }

  /** The stored totals once model `k` has handed over. */
  function HandedOver(w: World, k: nat, totals: map<string, real>): map<string, real> {
    match Called(w, k, 0)
    case Error(_) => totals
    case Answer(_, cost) => Recorded(totals, w.recordMonth(k), cost)
  }

  /** A model that was really asked, and the month's stored total when it was. */
  datatype Asked = Asked(place: nat, spent: real)

  /** The models the walk from `i` on asks, in order. */
  function Trail(w: World, n: nat, cap: real, i: nat, totals: map<string, real>): seq<Asked>
    requires i < n
    decreases n - i
  {
    if cap > 0.0 && SpentIn(totals, w.checkMonth(i)) >= cap then []
    else
      [Asked(i, SpentIn(totals, w.checkMonth(i)))] +
      if i + 1 < n && Skipped(w, i) then Trail(w, n, cap, i + 1, HandedOver(w, i, totals)) else []
  }

  /** `asked` is the trail up to model `i`. */
  ghost predicate Continues(trail: seq<Asked>, asked: seq<Asked>, w: World, n: nat, cap: real, i: nat, totals: map<string, real>)
    requires i < n
  {
    trail == asked + Trail(w, n, cap, i, totals)
  }

  lemma ContinuesAfter(trail: seq<Asked>, asked: seq<Asked>, w: World, n: nat, cap: real, i: nat, totals: map<string, real>)
    requires i < n && Continues(trail, asked, w, n, cap, i, totals)
    requires cap <= 0.0 || SpentIn(totals, w.checkMonth(i)) < cap
    ensures var longer := asked + [Asked(i, SpentIn(totals, w.checkMonth(i)))];
            if i + 1 < n && Skipped(w, i) then Continues(trail, longer, w, n, cap, i + 1, HandedOver(w, i, totals))
            else trail == longer
  {
    if i + 1 < n && Skipped(w, i) {
      var rest := Trail(w, n, cap, i + 1, HandedOver(w, i, totals));
      assert asked + ([Asked(i, SpentIn(totals, w.checkMonth(i)))] + rest) == asked + [Asked(i, SpentIn(totals, w.checkMonth(i)))] + rest;
    }
  }

  /** What asking model `k` adds to the record of costs. */
  function ChargeOf(w: World, k: nat): seq<Charge> {
    match Called(w, k, 0)
    case Error(_) => []
    case Answer(_, cost) => Noted(w.recordMonth(k), cost)
  }

  /** The record of costs once the first `k` models have been asked. */
  function LogWith(log: seq<Charge>, w: World, k: nat): seq<Charge> {
    if k == 0 then log else LogWith(log, w, k - 1) + ChargeOf(w, k - 1)
  }

  /** Every check and every record falls into this month. */
  predicate InMonth(w: World, n: nat, month: string) {
    forall k :: 0 <= k < n ==> w.checkMonth(k) == month && w.recordMonth(k) == month
  }

  /** The month's total has reached a positive cap. */
  predicate GateShut(w: World, cap: real, i: nat, totals: map<string, real>) {
    cap > 0.0 && SpentIn(totals, w.checkMonth(i)) >= cap
  }

  /** What the turn of model `i` comes to: the completion's end, or the next model's turn. */
  function TurnEnd(w: World, cap: real, i: nat, hasNext: bool, totals: map<string, real>): Option<Common.Result<string, Failure>> {
    if GateShut(w, cap, i, totals) then Some(Err(BudgetExceeded))
    else if hasNext && Skipped(w, i) then None
    else
      match Called(w, i, 0)
      case Error(f) => Some(Err(f))
      case Answer(content, cost) => Some(if cost.Some? && cost.value < 0.0 then Err(BadCost) else Ok(content))
  }

  /** A completion: what it comes to, whom it asks, and the record before it. */
  datatype Plan = Plan(walk: Result, trail: seq<Asked>, before: seq<Charge>)

  /** The completion stands before model `i`. */
  ghost predicate Stands(p: Plan, asked: seq<Asked>, w: World, n: nat, cap: real, i: nat, totals: map<string, real>, log: seq<Charge>)
    requires i < n
  {
    && p.walk == Walk(w, n, cap, i, totals) && Continues(p.trail, asked, w, n, cap, i, totals)
    && log == LogWith(p.before, w, i) && |asked| == i
  }

  /** The completion after the turn of model `i`: before the next one, or over. */
  ghost predicate Turned(p: Plan, asked: seq<Asked>, w: World, n: nat, cap: real, i: nat, totals: map<string, real>, log: seq<Charge>,
                         end: Option<Common.Result<string, Failure>>)
  {
    match end
    case None => i + 1 < n && Stands(p, asked, w, n, cap, i + 1, totals, log)
    case Some(r) =>
      && p.trail == asked && log == LogWith(p.before, w, |asked|)
      && p.walk == Result(match r case Ok(content) => Served(i, content) case Err(f) => Failed(f), totals)
  }

  /** One turn leads to the next model's, or to the end of walk and trail. */
  lemma TurnMoves(walk: Result, trail: seq<Asked>, asked: seq<Asked>, w: World, n: nat, cap: real, i: nat, totals: map<string, real>)
    requires i < n && walk == Walk(w, n, cap, i, totals) && Continues(trail, asked, w, n, cap, i, totals)
    ensures var shut := GateShut(w, cap, i, totals);
            var after := if shut then totals else HandedOver(w, i, totals);
            var asked' := if shut then asked else asked + [Asked(i, SpentIn(totals, w.checkMonth(i)))];
            match TurnEnd(w, cap, i, i + 1 < n, totals)
            case None => i + 1 < n && !shut && walk == Walk(w, n, cap, i + 1, after) && Continues(trail, asked', w, n, cap, i + 1, after)
            case Some(Err(f)) => walk == Result(Failed(f), after) && trail == asked'
            case Some(Ok(content)) => walk == Result(Served(i, content), after) && trail == asked'
  {
    if GateShut(w, cap, i, totals) {
      assert asked + [] == asked;
    } else {
      ContinuesAfter(trail, asked, w, n, cap, i, totals);
    }
  }

  /** `LlmResult`, as far as the chain decides it. */
  datatype LlmResult = LlmResult(content: string, model: string, fallbackFrom: seq<string>)

  /** What the caller gets: the failure, or the text with its model and the models before it. */
  function Told(c: Completion, models: seq<string>): Common.Result<LlmResult, Failure> {
    match c
    case Failed(f) => Err(f)
    case Served(i, content) => if i < |models| then Ok(LlmResult(content, models[i], models[..i])) else Err(Other)
  }

  class LlmClient {
    const budget: BudgetTracker
    const chain: seq<string>

    constructor (b: BudgetTracker, models: seq<string>)
      requires models != []
      ensures budget == b && chain == models
    {
      budget, chain := b, models;
    }

    /** The turn of model `i`: the gate, the call, its cost on record, and the answer unless the next model is asked. */
    method Turn(w: World, i: nat, hasNext: bool, ghost before: seq<Charge>, ghost asked: seq<Asked>)
      returns (end: Option<Common.Result<string, Failure>>, ghost asked': seq<Asked>)
      requires budget.Valid() && budget.log == LogWith(before, w, i) && |asked| == i
      modifies budget
      ensures budget.Valid() && budget.log == LogWith(before, w, |asked'|)
      ensures end == TurnEnd(w, budget.cap, i, hasNext, old(budget.totals))
      ensures if GateShut(w, budget.cap, i, old(budget.totals)) then budget.totals == old(budget.totals) && asked' == asked
              else
                && budget.totals == HandedOver(w, i, old(budget.totals))
                && asked' == asked + [Asked(i, SpentIn(old(budget.totals), w.checkMonth(i)))]
    {
      var allowed := budget.CheckAllowed(w.checkMonth(i));
      if !allowed {
        return Some(Err(BudgetExceeded)), asked;
      }
      asked' := asked + [Asked(i, SpentIn(budget.totals, w.checkMonth(i)))];
      var response, _ := CallWithRetry(w, i);
      match response {
        case Error(f) =>
          end := if hasNext && ShouldTryNext(f) then None else Some(Err(f));
        case Answer(content, cost) =>
          var failed := budget.RecordCost(w.recordMonth(i), cost);
          end := if failed.Some? then Some(Err(BadCost)) else if BlankText(content) && hasNext then None else Some(Ok(content));
      }
    }

    /**
     `complete`: an explicit model replaces the chain; the loop always answers or fails. `asked`
     records each call of a model together with the month's total at that moment. Exactly what
     those calls cost is put on record.
     */
    method Complete(model: Option<string>, w: World)
      returns (r: Common.Result<LlmResult, Failure>, ghost asked: seq<Asked>)
      requires chain != [] && budget.Valid()
      modifies budget
      ensures budget.Valid() && budget.log == LogWith(old(budget.log), w, |asked|)
      ensures asked == Trail(w, if model.Some? then 1 else |chain|, budget.cap, 0, old(budget.totals))
      ensures var models := if model.Some? then [model.value] else chain;
              var walk := Walk(w, |models|, budget.cap, 0, old(budget.totals));
              budget.totals == walk.totals && r == Told(walk.completion, models)
    {
      r, asked := CompleteWith(if model.Some? then [model.value] else chain, w);
    }

    /** That turn on the way of a whole completion. */
    method TakeTurn(w: World, n: nat, i: nat, ghost p: Plan, ghost asked: seq<Asked>)
      returns (end: Option<Common.Result<string, Failure>>, ghost asked': seq<Asked>)
      requires budget.Valid() && i < n && Stands(p, asked, w, n, budget.cap, i, budget.totals, budget.log)
      modifies budget
      ensures budget.Valid() && Turned(p, asked', w, n, budget.cap, i, budget.totals, budget.log, end)
    {
      TurnMoves(p.walk, p.trail, asked, w, n, budget.cap, i, budget.totals);
      end, asked' := Turn(w, i, i + 1 < n, p.before, asked);
    }

    /** The loop over the models. */
    method CompleteWith(models: seq<string>, w: World)
      returns (r: Common.Result<LlmResult, Failure>, ghost asked: seq<Asked>)
      requires models != [] && budget.Valid()
      modifies budget
      ensures budget.Valid() && budget.log == LogWith(old(budget.log), w, |asked|)
      ensures asked == Trail(w, |models|, budget.cap, 0, old(budget.totals))
      ensures var walk := Walk(w, |models|, budget.cap, 0, old(budget.totals));
              budget.totals == walk.totals && r == Told(walk.completion, models)
    {
      var fallbackFrom: seq<string> := [];
      var i := 0;
      ghost var p := Plan(Walk(w, |models|, budget.cap, 0, budget.totals), Trail(w, |models|, budget.cap, 0, budget.totals), budget.log);
      asked := [];
      while i < |models|
        invariant i < |models| && fallbackFrom == models[..i] && budget.Valid()
        invariant Stands(p, asked, w, |models|, budget.cap, i, budget.totals, budget.log) == true
        decreases |models| - i
      {
        var end;
        end, asked := TakeTurn(w, |models|, i, p, asked);
        match end {
          case Some(Err(f)) => return Err(f), asked;
          case Some(Ok(content)) => return Ok(LlmResult(content, models[i], fallbackFrom)), asked;
          case None =>
        }
        fallbackFrom := fallbackFrom + [models[i]];
        i := i + 1;
      }
      assert false;
    }
  }

  // ---------------------------------------------------------------------------------------
  // What the walk means
  // ---------------------------------------------------------------------------------------

  /** The request failed in a way that is worth asking the same model again. */
  predicate Transient(r: Response) {
    r == Error(Timeout) || r == Error(Connection) || r == Error(RateLimit)
  }

  /** The answer of a model is its first response that is not transient; three transient ones exhaust it. */
  lemma CalledIs(w: World, i: nat, k: nat)
    requires k <= MAX_RETRIES + 1 && forall j: nat :: j < k ==> Transient(w.request(i, j))
    requires k <= MAX_RETRIES ==> !Transient(w.request(i, k))
    ensures Called(w, i, 0) == if k <= MAX_RETRIES then w.request(i, k) else Error(ProviderExhausted)
  {
    CalledFrom(w, i, 0, k);
  }

  lemma {:induction false} CalledFrom(w: World, i: nat, j: nat, k: nat)
    requires j <= k <= MAX_RETRIES + 1 && forall m: nat :: j <= m < k ==> Transient(w.request(i, m))
    requires k <= MAX_RETRIES ==> !Transient(w.request(i, k))
    ensures Called(w, i, j) == if k <= MAX_RETRIES then w.request(i, k) else Error(ProviderExhausted)
    decreases k - j
  {
    if j < k {
      assert Transient(w.request(i, j));
      CalledFrom(w, i, j + 1, k);
    }
  }

  /** This response ends the attempts on a model, and the next model is asked after it. */
  predicate WorthAnother(r: Response) {
    match r
    case Answer(content, cost) => (forall i :: 0 <= i < |content| ==> Text.IsSpace(content[i])) && (cost.Some? ==> cost.value >= 0.0)
    case Error(f) => f == ProviderExhausted || (f.Status? && f.code != 401 && f.code != 403)
  }

  /**
   Exactly when a model hands over to the next: its retries ran out, or what ended them is a status
   other than 401 and 403, or a blank answer with a cost that can be recorded.
   */
  lemma HandsOverIff(w: World, k: nat, n: nat)
    requires n <= MAX_RETRIES + 1 && forall j: nat :: j < n ==> Transient(w.request(k, j))
    requires n <= MAX_RETRIES ==> !Transient(w.request(k, n))
    ensures Skipped(w, k) <==> n == MAX_RETRIES + 1 || WorthAnother(w.request(k, n))
  {
    CalledIs(w, k, n);
    if n <= MAX_RETRIES && w.request(k, n).Answer? { Text.BlankIff(w.request(k, n).content); }
  }

  /** An answer is charged whether it is used or not; a model that only fails costs nothing. */
  lemma ChargeIs(w: World, k: nat, n: nat)
    requires n <= MAX_RETRIES + 1 && forall j: nat :: j < n ==> Transient(w.request(k, j))
    requires n <= MAX_RETRIES ==> !Transient(w.request(k, n))
    ensures ChargeOf(w, k) ==
              if n > MAX_RETRIES then []
              else
                match w.request(k, n)
                case Answer(_, Some(c)) => if c >= 0.0 then [Charge(w.recordMonth(k), c)] else []
                case _ => []
  {
    CalledIs(w, k, n);
  }

  /** Model `k` answers with a cost that can be recorded. */
  predicate Answered(w: World, k: nat) {
    Called(w, k, 0).Answer? && !(Called(w, k, 0).cost.Some? && Called(w, k, 0).cost.value < 0.0)
  }

  /** The completion does not end for want of budget. */
  predicate Unblocked(w: World, n: nat, cap: real, i: nat, totals: map<string, real>)
    requires i < n
  {
    Walk(w, n, cap, i, totals).completion != Failed(BudgetExceeded)
  }

  /** The model that serves is the first that is not skipped; the last one is never skipped. */
  ghost predicate FirstToServe(w: World, n: nat, i: nat, j: nat) {
    && i <= j < n && (forall k :: i <= k < j ==> Skipped(w, k))
    && Answered(w, j) && (j < n - 1 ==> !Skipped(w, j))
  }

  lemma {:induction false} ServedByFirst(w: World, n: nat, cap: real, i: nat, totals: map<string, real>)
    requires i < n && Walk(w, n, cap, i, totals).completion.Served?
    ensures var c := Walk(w, n, cap, i, totals).completion;
            FirstToServe(w, n, i, c.place) && Called(w, c.place, 0).content == c.content
    decreases n - i
  {
    if i + 1 < n && Skipped(w, i) {
      ServedByFirst(w, n, cap, i + 1, HandedOver(w, i, totals));
    }
  }

  /** Conversely, if the budget does not block, the first model to serve does serve. */
  lemma {:induction false} FirstServes(w: World, n: nat, cap: real, i: nat, totals: map<string, real>, j: nat)
    requires i < n && Unblocked(w, n, cap, i, totals) && FirstToServe(w, n, i, j)
    ensures Walk(w, n, cap, i, totals).completion == Served(j, Called(w, j, 0).content)
    decreases n - i
  {
    if i < j {
      assert Skipped(w, i);
      FirstServes(w, n, cap, i + 1, HandedOver(w, i, totals), j);
    }
  }

  /** What stands in the budget files when the walk reaches model `k`, if it does. */
  function Reached(w: World, n: nat, cap: real, totals: map<string, real>, k: nat): Option<map<string, real>>
    requires k < n
    decreases k, 0
  {
    if k == 0 then Some(totals)
    else
      match Attempt(w, n, cap, totals, k - 1)
      case None => None
      case Some(t) => if Skipped(w, k - 1) then Some(HandedOver(w, k - 1, t)) else None
  }

  /** Model `k` is asked: every earlier one handed over, each after passing the gate. */
  function Attempt(w: World, n: nat, cap: real, totals: map<string, real>, k: nat): Option<map<string, real>>
    requires k < n
    decreases k, 1
  {
    var before := Reached(w, n, cap, totals, k);
    if before.None? || (cap > 0.0 && SpentIn(before.value, w.checkMonth(k)) >= cap) then None else before
  }

  /** The walk is the walk from any model it gets to ask. */
  lemma {:induction false} WalkFromAttempt(w: World, n: nat, cap: real, totals: map<string, real>, k: nat)
    requires k < n && Attempt(w, n, cap, totals, k).Some?
    ensures Walk(w, n, cap, 0, totals) == Walk(w, n, cap, k, Attempt(w, n, cap, totals, k).value)
  {
    if k > 0 { WalkFromAttempt(w, n, cap, totals, k - 1); }
  }

  lemma {:induction false} NoneAfter(w: World, n: nat, cap: real, totals: map<string, real>, i: nat, k: nat)
    requires i <= k < n && Reached(w, n, cap, totals, i).None?
    ensures Attempt(w, n, cap, totals, k).None?
  {
    if i < k { NoneAfter(w, n, cap, totals, i, k - 1); }
  }

  /** The place a trail has for model `k`, if it was asked. */
  ghost predicate Logged(w: World, n: nat, cap: real, totals: map<string, real>, i: nat, trail: seq<Asked>, k: nat)
    requires i <= k < n
  {
    var attempt := Attempt(w, n, cap, totals, k);
    && (attempt.Some? <==> k - i < |trail|)
    && (attempt.Some? ==> trail[k - i] == Asked(k, SpentIn(attempt.value, w.checkMonth(k))))
  }

  lemma {:induction false} TrailIs(w: World, n: nat, cap: real, totals: map<string, real>, i: nat, t: map<string, real>, k: nat)
    requires i <= k < n && Reached(w, n, cap, totals, i) == Some(t)
    ensures Logged(w, n, cap, totals, i, Trail(w, n, cap, i, t), k)
    decreases k - i
  {
    if i < k {
      if Attempt(w, n, cap, totals, i).Some? && Skipped(w, i) {
        TrailIs(w, n, cap, totals, i + 1, HandedOver(w, i, t), k);
      } else {
        NoneAfter(w, n, cap, totals, i + 1, k);
      }
    }
  }

  /**
   Every model the completion asks is one that every earlier model handed over to, and it is asked
   with the month's stored total below a positive cap.
   */
  lemma AttemptsStartUnderCap(w: World, n: nat, cap: real, totals: map<string, real>)
    requires n > 0
    ensures var trail := Trail(w, n, cap, 0, totals);
            && |trail| <= n
            && (forall k :: 0 <= k < n ==> Logged(w, n, cap, totals, 0, trail, k))
            && (cap > 0.0 ==> forall k :: 0 <= k < |trail| ==> trail[k].spent < cap)
  {
    TrailLength(w, n, cap, 0, totals);
    forall k | 0 <= k < n
      ensures Logged(w, n, cap, totals, 0, Trail(w, n, cap, 0, totals), k)
    {
      TrailIs(w, n, cap, totals, 0, totals, k);
    }
    var trail := Trail(w, n, cap, 0, totals);
    forall k | 0 <= k < |trail|
      ensures cap > 0.0 ==> trail[k].spent < cap
    {
      assert Logged(w, n, cap, totals, 0, trail, k);
    }
  }

  lemma {:induction false} TrailLength(w: World, n: nat, cap: real, i: nat, totals: map<string, real>)
    requires i < n
    ensures |Trail(w, n, cap, i, totals)| <= n - i
    decreases n - i
  {
    if i + 1 < n { TrailLength(w, n, cap, i + 1, HandedOver(w, i, totals)); }
  }

  /** An error that is not eligible ends the completion at once, with nothing recorded for it. */
  lemma IneligibleStops(w: World, n: nat, cap: real, totals: map<string, real>, k: nat)
    requires k < n && Attempt(w, n, cap, totals, k).Some?
    requires Called(w, k, 0).Error? && !ShouldTryNext(Called(w, k, 0).failure)
    ensures Walk(w, n, cap, 0, totals) == Result(Failed(Called(w, k, 0).failure), Attempt(w, n, cap, totals, k).value)
  {
    WalkFromAttempt(w, n, cap, totals, k);
  }

  /** If every model is skipped, the last one's error is raised, or its blank answer is served. */
  lemma ChainExhausted(w: World, n: nat, cap: real, totals: map<string, real>)
    requires n > 0 && Attempt(w, n, cap, totals, n - 1).Some? && Skipped(w, n - 1)
    ensures Walk(w, n, cap, 0, totals).completion ==
              match Called(w, n - 1, 0) case Error(f) => Failed(f) case Answer(content, _) => Served(n - 1, content)
  {
    WalkFromAttempt(w, n, cap, totals, n - 1);
  }

  /** In one month, every total the walk leaves is at most the cap plus one call and half a step. */
  lemma {:induction false} WalkOverrun(w: World, n: nat, cap: real, i: nat, totals: map<string, real>, month: string, most: real)
    requires i < n && cap > 0.0 && most >= 0.0
    requires forall k :: w.checkMonth(k) == month && w.recordMonth(k) == month
    requires forall k :: i <= k < n && Answered(w, k) && Called(w, k, 0).cost.Some? ==> Called(w, k, 0).cost.value <= most
    requires SpentIn(totals, month) <= cap + most + HALF_STEP
    ensures SpentIn(Walk(w, n, cap, i, totals).totals, month) <= cap + most + HALF_STEP
    decreases n - i
  {
    if SpentIn(totals, w.checkMonth(i)) < cap {
      match Called(w, i, 0)
      case Error(f) =>
        if i + 1 < n { WalkOverrun(w, n, cap, i + 1, totals, month, most); }
      case Answer(content, cost) =>
        if cost.Some? { RoundClose(SpentIn(totals, month) + cost.value); }
        if i + 1 < n && Answered(w, i) {
          WalkOverrun(w, n, cap, i + 1, Recorded(totals, month, cost), month, most);
        }
    }
  }

  // ---------------------------------------------------------------------------------------
  // What a completion charges
  // ---------------------------------------------------------------------------------------

  lemma TurnBalanced(w: World, k: nat, totals: map<string, real>, log: seq<Charge>)
    requires Balanced(totals, log)
    ensures Balanced(HandedOver(w, k, totals), log + ChargeOf(w, k))
  {
    if Called(w, k, 0).Answer? {
      StillBalanced(totals, log, w.recordMonth(k), Called(w, k, 0).cost);
    } else {
      assert log + [] == log;
    }
  }

  lemma TurnGated(w: World, n: nat, cap: real, k: nat, totals: map<string, real>, log: seq<Charge>, month: string)
    requires k < n && InMonth(w, n, month) && Balanced(totals, log) && SpentIn(totals, month) < cap
    requires Gated(CostsIn(log, month), cap)
    ensures Gated(CostsIn(log + ChargeOf(w, k), month), cap)
  {
    assert BalancedIn(totals, log, month);
    if ChargeOf(w, k) == [] {
      assert log + [] == log;
    } else {
      CostsAppend(log, ChargeOf(w, k)[0], month);
      GatedAppend(CostsIn(log, month), ChargeOf(w, k)[0].usd, cap);
    }
  }

  /** What holds of the record once the first `k` models of the trail have been asked. */
  ghost predicate Booked(w: World, n: nat, cap: real, totals: map<string, real>, log: seq<Charge>, month: string, k: nat)
  {
    && Gated(CostsIn(log, month), cap)
    && (k < n && Reached(w, n, cap, totals, k).Some? ==> Balanced(Reached(w, n, cap, totals, k).value, log))
  }

  lemma NextBooked(w: World, n: nat, cap: real, totals: map<string, real>, log: seq<Charge>, month: string, k: nat)
    requires k < n && cap > 0.0 && InMonth(w, n, month) && Booked(w, n, cap, totals, LogWith(log, w, k), month, k)
    requires Attempt(w, n, cap, totals, k).Some?
    ensures Booked(w, n, cap, totals, LogWith(log, w, k + 1), month, k + 1)
  {
    var t := Attempt(w, n, cap, totals, k).value;
    TurnGated(w, n, cap, k, t, LogWith(log, w, k), month);
    TurnBalanced(w, k, t, LogWith(log, w, k));
  }

  lemma {:induction false} AllBooked(w: World, n: nat, cap: real, totals: map<string, real>, log: seq<Charge>, month: string, k: nat)
    requires cap > 0.0 && InMonth(w, n, month) && Booked(w, n, cap, totals, log, month, 0)
    requires k <= n && (k > 0 ==> Attempt(w, n, cap, totals, k - 1).Some?)
    ensures Booked(w, n, cap, totals, LogWith(log, w, k), month, k)
  {
    if k > 0 {
      AllBooked(w, n, cap, totals, log, month, k - 1);
      NextBooked(w, n, cap, totals, log, month, k - 1);
    }
  }

  lemma AskedAttempts(w: World, n: nat, cap: real, totals: map<string, real>)
    requires n > 0
    ensures var trail := Trail(w, n, cap, 0, totals);
            |trail| <= n && forall j :: 0 <= j < |trail| ==> Attempt(w, n, cap, totals, j).Some?
  {
    var trail := Trail(w, n, cap, 0, totals);
    AttemptsStartUnderCap(w, n, cap, totals);
    forall j | 0 <= j < |trail|
      ensures Attempt(w, n, cap, totals, j).Some?
    {
      assert Logged(w, n, cap, totals, 0, trail, j);
    }
  }

  /** Within one month every charge a completion makes is made while the total is below the cap. */
  lemma ChargesGated(w: World, n: nat, cap: real, totals: map<string, real>, log: seq<Charge>, month: string)
    requires n > 0 && cap > 0.0 && InMonth(w, n, month) && Balanced(totals, log) && Gated(CostsIn(log, month), cap)
    ensures Gated(CostsIn(LogWith(log, w, |Trail(w, n, cap, 0, totals)|), month), cap)
  {
    AskedAttempts(w, n, cap, totals);
    AllBooked(w, n, cap, totals, log, month, |Trail(w, n, cap, 0, totals)|);
  }
}
