/**
 The sliding-window rate limit of one gateway (`_check_rate_limit`,
 src/actions/action_gateway.py): what the short list of recent calls says about the whole history.
 */
module RateLimit {

  const MAX_CALLS: nat := 10
  const WINDOW: real := 60.0

  /** The recent calls once those before `cutoff` are popped from the front. */
  function Trimmed(recent: seq<real>, cutoff: real): (r: seq<real>)
    ensures |r| <= |recent| && r == recent[|recent| - |r|..]
    ensures r != [] ==> r[0] >= cutoff
    ensures forall i :: 0 <= i < |recent| - |r| ==> recent[i] < cutoff
  {
    if recent != [] && recent[0] < cutoff then Trimmed(recent[1..], cutoff) else recent
  }

  predicate Sorted(times: seq<real>) {
    forall i, j :: 0 <= i < j < |times| ==> times[i] <= times[j]
  }

  /** The call `MAX_CALLS` after any call comes more than a window later. */
  predicate Spaced(times: seq<real>) {
    forall i :: 0 <= i < |times| - MAX_CALLS ==> times[i + MAX_CALLS] > times[i] + WINDOW
  }

  /**
   `admitted` is every admission so far, `recent` the list the gateway still keeps, `last` the time
   of its last check: what was forgotten lies before the window that ended then.
   */
  ghost predicate History(admitted: seq<real>, recent: seq<real>, last: real) {
    && Sorted(admitted) && Spaced(admitted)
    && |recent| <= |admitted| && |recent| <= MAX_CALLS
    && recent == admitted[|admitted| - |recent|..]
    && (forall i :: 0 <= i < |admitted| ==> admitted[i] <= last)
    && forall i :: 0 <= i < |admitted| - |recent| ==> admitted[i] < last - WINDOW
  }

  /** How many of the times lie in the closed window that ends at `now`. */
  function InWindow(times: seq<real>, now: real): nat {
    if times == [] then 0
    else InWindow(times[..|times| - 1], now) + if now - WINDOW <= times[|times| - 1] <= now then 1 else 0
  }

  lemma {:induction false} CountSuffix(times: seq<real>, now: real, k: nat)
    requires k <= |times|
    requires forall i :: 0 <= i < |times| ==> times[i] <= now && (times[i] >= now - WINDOW <==> i >= k)
    ensures InWindow(times, now) == |times| - k
  {
    if times != [] {
      CountSuffix(times[..|times| - 1], now, if k == |times| then k - 1 else k);
    }
  }

  /** Trimming cuts the history where the window begins. */
  lemma TrimCut(admitted: seq<real>, recent: seq<real>, last: real, now: real) returns (k: nat)
    requires History(admitted, recent, last) && last <= now
    ensures k <= |admitted| && Trimmed(recent, now - WINDOW) == admitted[k..]
    ensures forall i :: 0 <= i < |admitted| ==> (admitted[i] >= now - WINDOW <==> i >= k)
  {
    var dropped := |admitted| - |recent|;
    var kept := Trimmed(recent, now - WINDOW);
    k := |admitted| - |kept|;
    assert kept == admitted[k..];
    forall i | 0 <= i < |admitted|
      ensures admitted[i] >= now - WINDOW <==> i >= k
    {
      TrimSide(admitted, recent, last, now, i);
    }
  }

  lemma TrimSide(admitted: seq<real>, recent: seq<real>, last: real, now: real, i: nat)
    requires History(admitted, recent, last) && last <= now && i < |admitted|
    ensures admitted[i] >= now - WINDOW <==> i >= |admitted| - |Trimmed(recent, now - WINDOW)|
  {
    var dropped, kept := |admitted| - |recent|, Trimmed(recent, now - WINDOW);
    var k := |admitted| - |kept|;
    if i >= dropped {
      assert recent[i - dropped] == admitted[i];
      if i >= k {
        assert kept[0] == recent[k - dropped] == admitted[k] <= admitted[i];
      }
    }
  }

  /** Trimming keeps the history, and what is left is exactly the window that ends now. */
  lemma TrimKeeps(admitted: seq<real>, recent: seq<real>, last: real, now: real)
    requires History(admitted, recent, last) && last <= now
    ensures History(admitted, Trimmed(recent, now - WINDOW), now)
    ensures InWindow(admitted, now) == |Trimmed(recent, now - WINDOW)|
  {
    var k := TrimCut(admitted, recent, last, now);
    CountSuffix(admitted, now, k);
  }

  /** Admitting a call while fewer than `MAX_CALLS` are left keeps the history and its spacing. */
  lemma AdmitKeeps(admitted: seq<real>, recent: seq<real>, now: real)
    requires History(admitted, recent, now) && |recent| < MAX_CALLS
    ensures History(admitted + [now], recent + [now], now)
  {
    var longer := admitted + [now];
    forall i | 0 <= i < |longer| - MAX_CALLS
      ensures longer[i + MAX_CALLS] > longer[i] + WINDOW
    {
      if i + MAX_CALLS < |admitted| {
        assert admitted[i + MAX_CALLS] > admitted[i] + WINDOW;
      }
    }
  }

  /** Hence no closed window of `WINDOW` seconds, wherever it lies, holds more than `MAX_CALLS`. */
  lemma AnyWindow(admitted: seq<real>, i: nat, j: nat)
    requires Sorted(admitted) && Spaced(admitted)
    requires i + MAX_CALLS <= j < |admitted|
    ensures admitted[j] - admitted[i] > WINDOW
  {
    assert admitted[i + MAX_CALLS] > admitted[i] + WINDOW;
    assert i + MAX_CALLS == j || admitted[i + MAX_CALLS] <= admitted[j];
  }
}
