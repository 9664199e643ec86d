/**
 * Turning a handler binding name such as "onClicked" into the name of the
 * signal it handles ("clicked"), and back.
 */
module SignalNames {
  import opened Strings

  /**
   * Position `k` of `s` holds an upper-case letter and every character from
   * `from` up to `k` has no case: `k` is where the scan stops with success.
   */
  predicate CapitalAt(s: string, from: nat, k: nat) {
    && from <= k < |s|
    && IsUpperChar(s[k])
    && forall j :: from <= j < k ==> !IsCased(s[j])
  }

  /** `s` with exactly the character at `k` lower-cased. */
  function LowerAt(s: string, k: nat): string
    requires k < |s|
  {
    s[..k] + [ToLowerChar(s[k])] + s[k + 1..]
  }

  /**
   * The loop of `signalName`: scan `signal` from `i`, give up on a lower-case
   * letter, lower-case the first upper-case letter and stop.
   */
  function ScanSignal(signal: string, i: nat): (r: string)
    requires i <= |signal|
    decreases |signal| - i
    ensures r != [] <==> exists k: nat :: CapitalAt(signal, i, k)
    ensures forall k: nat :: CapitalAt(signal, i, k) ==> r == LowerAt(signal, k)
  {
    if i == |signal| then ""
    else if IsLowerChar(signal[i]) then ""
    else if IsUpperChar(signal[i]) then
      assert CapitalAt(signal, i, i);
      assert forall k: nat :: CapitalAt(signal, i, k) ==> k == i;
      LowerAt(signal, i)
    else
      var next := i + 1;
      var rest := ScanSignal(signal, next);
      assert forall k: nat :: CapitalAt(signal, i, k) <==> CapitalAt(signal, next, k);
      assert (exists k: nat :: CapitalAt(signal, i, k)) <==> (exists k: nat :: CapitalAt(signal, next, k));
      rest
  }

  /** A name `signalName` accepts: "on", then uncased characters, then a capital. */
  predicate IsHandlerName(h: string) {
    |h| > 2 && StartsWith(h, "on") && exists k: nat :: 2 <= k < |h| && CapitalAt(h, 2, k)
  }

  /** signalName: the signal a handler name refers to, or "" when it is not a handler name. */
  function SignalName(handlerName: string): (r: string)
    ensures r != [] <==> IsHandlerName(handlerName)
    ensures forall k: nat :: IsHandlerName(handlerName) && CapitalAt(handlerName, 2, k) ==>
              r == handlerName[2..k] + [ToLowerChar(handlerName[k])] + handlerName[k + 1..]
    ensures r != [] ==> |r| == |handlerName| - 2
  {
    if StartsWith(handlerName, "on") && |handlerName| > 2 then
      var signal := handlerName[2..];
      assert forall k: nat :: 2 <= k ==> (CapitalAt(handlerName, 2, k) <==> CapitalAt(signal, 0, k - 2));
      assert forall k: nat :: CapitalAt(signal, 0, k) ==> CapitalAt(handlerName, 2, k + 2);
      assert forall k :: 2 <= k < |handlerName| ==>
          LowerAt(signal, k - 2) == handlerName[2..k] + [ToLowerChar(handlerName[k])] + handlerName[k + 1..];
      ScanSignal(signal, 0)
    else ""
  }

  /** The conventional handler name of a signal: "on" followed by the capitalised signal name. */
  function HandlerName(signal: string): string
    requires |signal| > 0
  {
    "on" + [ToUpperChar(signal[0])] + signal[1..]
  }

  /** A signal name that starts with a lower-case letter survives the trip through its handler name. */
  lemma {:induction false} SignalNameOfHandlerName(signal: string)
    requires |signal| > 0 && IsLowerChar(signal[0])
    ensures SignalName(HandlerName(signal)) == signal
  {
    var h := HandlerName(signal);
    assert h[..2] == "on";
    assert CapitalAt(h, 2, 2);
    assert h[3..] == signal[1..];
  }

  /** A name whose first cased character after "on" is lower case is not a handler name. */
  lemma {:induction false} LowerCaseAfterPrefixIsNoHandler(h: string, k: nat)
    requires StartsWith(h, "on") && 2 <= k < |h| && IsLowerChar(h[k])
    requires forall j :: 2 <= j < k ==> !IsCased(h[j])
    ensures SignalName(h) == ""
  {
  }
}
