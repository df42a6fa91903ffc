/**
 * proxyOrientationChange: a wrapper that forwards an orientationchange or
 * resize event only when the portrait flag differs from the one it saw last.
 */
module Orientation {
  import opened Wrappers

  /** isPortrait: the viewport is taller than it is wide. */
  predicate IsPortrait(innerWidth: real, innerHeight: real) {
    innerHeight > innerWidth
  }

  /**
   * One invocation of the wrapper. `last` is the remembered flag (`None` for
   * the `undefined` it starts as); the result says whether the handler runs,
   * and the flag remembered afterwards.
   */
  function ProxyStep(last: Option<bool>, portrait: bool): (r: (bool, Option<bool>))
    ensures r.0 <==> last != Some(portrait)
    ensures r.1 == Some(portrait)
  {
    if last != Some(portrait) then (true, Some(portrait)) else (false, last)
  }

  /** The flags handed to the handler over a run of invocations. */
  function Forwarded(last: Option<bool>, flags: seq<bool>): (out: seq<bool>)
    ensures |out| <= |flags|
    decreases |flags|
  {
    if flags == [] then []
    else
      var step := ProxyStep(last, flags[0]);
      (if step.0 then [flags[0]] else []) + Forwarded(step.1, flags[1..])
  }

  /** The flag remembered after a run of invocations. */
  function Remembered(last: Option<bool>, flags: seq<bool>): (r: Option<bool>)
    ensures flags != [] ==> r == Some(flags[|flags| - 1])
    ensures flags == [] ==> r == last
    decreases |flags|
  {
    if flags == [] then last else Remembered(ProxyStep(last, flags[0]).1, flags[1..])
  }

  /** The first flag the handler receives differs from the one remembered before the run. */
  lemma {:induction false} ForwardedFirstDiffers(last: Option<bool>, flags: seq<bool>)
    ensures var out := Forwarded(last, flags);
            |out| > 0 ==> last != Some(out[0])
    decreases |flags|
  {
    if flags != [] {
      var step := ProxyStep(last, flags[0]);
      if !step.0 {
        ForwardedFirstDiffers(step.1, flags[1..]);
      }
    }
  }

  /** No two neighbours of `s` are equal. */
  predicate NoRepeats(s: seq<bool>) {
    forall i :: 0 <= i < |s| - 1 ==> s[i] != s[i + 1]
  }

  /** The handler never receives the same flag twice in a row. */
  lemma {:induction false} ForwardedNeverRepeats(last: Option<bool>, flags: seq<bool>)
    ensures NoRepeats(Forwarded(last, flags))
    decreases |flags|
  {
    if flags != [] {
      var step := ProxyStep(last, flags[0]);
      var rest := Forwarded(step.1, flags[1..]);
      ForwardedNeverRepeats(step.1, flags[1..]);
      if step.0 {
        ForwardedFirstDiffers(step.1, flags[1..]);
        var out := [flags[0]] + rest;
        assert Forwarded(last, flags) == out;
        forall i | 0 <= i < |out| - 1
          ensures out[i] != out[i + 1]
        {
          if i > 0 {
            assert out[i] == rest[i - 1] && out[i + 1] == rest[i];
          }
        }
      } else {
        assert Forwarded(last, flags) == rest;
      }
    }
  }

  /**
   * After a run, the handler has last been told the current orientation:
   * the last flag it received (or, when it received none, the one
   * remembered before the run) is the one remembered now.
   */
  lemma {:induction false} ForwardedEndsAtRemembered(last: Option<bool>, flags: seq<bool>)
    ensures var out := Forwarded(last, flags);
            Remembered(last, flags) == if out == [] then last else Some(out[|out| - 1])
    decreases |flags|
  {
    if flags != [] {
      var step := ProxyStep(last, flags[0]);
      ForwardedEndsAtRemembered(step.1, flags[1..]);
      var rest := Forwarded(step.1, flags[1..]);
      if step.0 {
        assert Forwarded(last, flags) == [flags[0]] + rest;
      } else {
        assert Forwarded(last, flags) == rest;
      }
    }
  }

  /**
   * The function proxyOrientationChange returns, with the remembered flag as
   * its state. The script keeps that flag on the wrapped handler function,
   * which is shared by every instance; one object stands for that shared state.
   */
  class OrientationProxy {
    var lastOrientation: Option<bool>

    constructor()
      ensures lastOrientation == None
    {
      lastOrientation := None;
    }

    /** One event: returns whether the handler is to run. */
    method Invoke(innerWidth: real, innerHeight: real) returns (forward: bool)
      modifies this
      ensures (forward, lastOrientation) == ProxyStep(old(lastOrientation), IsPortrait(innerWidth, innerHeight))
    {
      var orientation := IsPortrait(innerWidth, innerHeight);
      forward := lastOrientation != Some(orientation);
      if forward {
        lastOrientation := Some(orientation);
      }
    }
  }
}
