/** Reading the static timer's report back into the pins, and the worst and
    total negative slack over the timing endpoints.

    The report is a sequence of whitespace-separated tokens, in records of
    four: `slack <node> <early|late> <value>`. Each token carries its text
    and, when its text reads as a number, that number. Whether the file
    ends in whitespace matters too: a read that ends the file without
    trailing whitespace already sets the end-of-file flag that stops the
    reading loop. */
module Timing {
  import opened Model

  datatype Token = Token(text: string, value: Option<real>)

  /** The report file: its tokens, and whether whitespace follows the last
      of them. */
  datatype Report = Report(tokens: seq<Token>, endsInSpace: bool)

  /** How reading the report ends: there was no report or it was empty (the
      source returns false), an assertion failed (the process aborts), or
      every record was read. */
  datatype ReadOutcome = NoResults | Aborted | Read

  predicate IsCorner(t: string)
  {
    t == "early" || t == "late"
  }

  /** Every node of the pin index names an existing pin. */
  predicate IndexInRange(pin2id: map<string, nat>, numPins: nat)
  {
    forall name :: name in pin2id ==> pin2id[name] < numPins
  }

  /** Record `r` starts with `slack`, has a corner, and a value that reads as
      a number when its node is a pin (the value of any other node is read as
      text and dropped). */
  predicate RecordOk(tokens: seq<Token>, r: nat, pin2id: map<string, nat>)
    requires r < |tokens| / 4
  {
    && tokens[4 * r].text == "slack"
    && IsCorner(tokens[4 * r + 2].text)
    && (tokens[4 * r + 1].text in pin2id ==> tokens[4 * r + 3].value.Some?)
  }

  /** A report the source reads to the end: every full record is well
      formed, and it ends after a full record, after a record missing only
      its value (a read at the end of the stream leaves the slack
      untouched), or after one more token that ends the file itself (that
      read sets end-of-file, so the loop stops before checking it). */
  predicate ReportOk(rep: Report, pin2id: map<string, nat>)
  {
    var tokens := rep.tokens;
    && (forall r: nat :: r < |tokens| / 4 ==> RecordOk(tokens, r, pin2id))
    && (|tokens| % 4 == 0
        || (|tokens| % 4 == 1 && !rep.endsInSpace)
        || (|tokens| % 4 == 3 && tokens[|tokens| - 3].text == "slack" && IsCorner(tokens[|tokens| - 1].text)))
  }

  /** A lone token after the last record is never checked when it ends the
      file, but with whitespace after it the loop runs once more and stops on
      it: `slack A early -0.3 slack` is read to the end only without a
      trailing newline. */
  lemma DanglingTokenAtEnd()
    ensures var tokens := [Token("slack", None), Token("A", None), Token("early", None), Token("-0.3", Some(-0.3)), Token("slack", None)];
      && ReportOk(Report(tokens, false), map["A" := 0])
      && !ReportOk(Report(tokens, true), map["A" := 0])
  {
    var tokens := [Token("slack", None), Token("A", None), Token("early", None), Token("-0.3", Some(-0.3)), Token("slack", None)];
    assert RecordOk(tokens, 0, map["A" := 0]);
  }

  /** Record `r` sets the slack of pin `id` at the given corner. */
  predicate Sets(tokens: seq<Token>, r: nat, pin2id: map<string, nat>, id: nat, early: bool)
    requires r < |tokens| / 4
  {
    && tokens[4 * r + 1].text in pin2id
    && pin2id[tokens[4 * r + 1].text] == id
    && tokens[4 * r + 2].text == (if early then "early" else "late")
    && tokens[4 * r + 3].value.Some?
  }

  /** The slack of pin `id` at a corner after the first `n` records: the
      value of the last of them that sets it, `initial` if none does. */
  function SlackAfter(tokens: seq<Token>, n: nat, pin2id: map<string, nat>, id: nat, early: bool, initial: real): real
    requires n <= |tokens| / 4
  {
    if n == 0 then initial
    else if Sets(tokens, n - 1, pin2id, id, early) then tokens[4 * (n - 1) + 3].value.value
    else SlackAfter(tokens, n - 1, pin2id, id, early, initial)
  }

  /** The pin with both of its slacks as the first `n` records leave them. */
  function PinAfter(tokens: seq<Token>, n: nat, pin2id: map<string, nat>, id: nat, p: Pin): Pin
    requires n <= |tokens| / 4
  {
    p.(earlySlk := SlackAfter(tokens, n, pin2id, id, true, p.earlySlk),
       lateSlk := SlackAfter(tokens, n, pin2id, id, false, p.lateSlk))
  }

  /** Last writer wins: a record that sets a pin's slack decides it unless a
      later record sets it again. */
  lemma {:induction false} LastRecordWins(tokens: seq<Token>, n: nat, pin2id: map<string, nat>, id: nat, early: bool, initial: real, r: nat)
    requires r < n <= |tokens| / 4
    requires Sets(tokens, r, pin2id, id, early)
    requires forall q: nat :: r < q < n ==> !Sets(tokens, q, pin2id, id, early)
    ensures SlackAfter(tokens, n, pin2id, id, early, initial) == tokens[4 * r + 3].value.value
  {
    if n - 1 != r {
      LastRecordWins(tokens, n - 1, pin2id, id, early, initial, r);
    }
  }

  /** A slack no record sets keeps its value; in particular records naming
      nodes outside the pin index change nothing. */
  lemma {:induction false} UnsetSlackKept(tokens: seq<Token>, n: nat, pin2id: map<string, nat>, id: nat, early: bool, initial: real)
    requires n <= |tokens| / 4
    requires forall q: nat :: q < n ==> !Sets(tokens, q, pin2id, id, early)
    ensures SlackAfter(tokens, n, pin2id, id, early, initial) == initial
  {
    if n > 0 {
      UnsetSlackKept(tokens, n - 1, pin2id, id, early, initial);
    }
  }

  /** The pins once every record of the report is read. */
  function ReportApplied(tokens: seq<Token>, pin2id: map<string, nat>, pins: seq<Pin>): (r: seq<Pin>)
    ensures |r| == |pins|
    ensures forall id :: 0 <= id < |pins| ==> r[id] == PinAfter(tokens, |tokens| / 4, pin2id, id, pins[id])
  {
    seq(|pins|, id requires 0 <= id < |pins| => PinAfter(tokens, |tokens| / 4, pin2id, id, pins[id]))
  }

  /** Reads the report into the pins' early and late slacks. */
  method ReadReport(report: Option<Report>, pin2id: map<string, nat>, pins: seq<Pin>)
    returns (outcome: ReadOutcome, pins': seq<Pin>)
    requires IndexInRange(pin2id, |pins|)
    ensures outcome == NoResults <==> report.None? || |report.value.tokens| == 0 || report.value.tokens[0].text == ""
    ensures outcome == Aborted <==> outcome != NoResults && !ReportOk(report.value, pin2id)
    ensures outcome == Read ==> |pins'| == |pins|
    ensures outcome == Read ==> forall id :: 0 <= id < |pins| ==>
      pins'[id] == PinAfter(report.value.tokens, |report.value.tokens| / 4, pin2id, id, pins[id])
    ensures outcome != Read ==> pins' == pins
  {
    pins' := pins;
    if report.None? || |report.value.tokens| == 0 || report.value.tokens[0].text == "" {
      return NoResults, pins;
    }
    var tokens := report.value.tokens;
    var r := 0;
    while r < |tokens| / 4
      invariant 0 <= r <= |tokens| / 4 && |pins'| == |pins|
      invariant forall q: nat :: q < r ==> RecordOk(tokens, q, pin2id)
      invariant forall id :: 0 <= id < |pins| ==> pins'[id] == PinAfter(tokens, r, pin2id, id, pins[id])
    {
      var name, corner, value := tokens[4 * r + 1].text, tokens[4 * r + 2].text, tokens[4 * r + 3].value;
      if tokens[4 * r].text != "slack" || !IsCorner(corner) {
        assert !RecordOk(tokens, r, pin2id);
        return Aborted, pins;
      }
      if name in pin2id {
        if value.None? {
          assert !RecordOk(tokens, r, pin2id);
          return Aborted, pins;
        }
        var id := pin2id[name];
        if corner == "early" {
          pins' := pins'[id := pins'[id].(earlySlk := value.value)];
        } else {
          pins' := pins'[id := pins'[id].(lateSlk := value.value)];
        }
      }
      r := r + 1;
    }
    var rest := |tokens| % 4;
    if (rest == 1 && report.value.endsInSpace) || rest == 2 {
      return Aborted, pins;
    }
    if rest == 3 && (tokens[|tokens| - 3].text != "slack" || !IsCorner(tokens[|tokens| - 1].text)) {
      return Aborted, pins;
    }
    outcome := Read;
  }

  /* ---------------- worst and total negative slack ---------------- */

  /** A timing endpoint: a primary output or the data input of a flop. */
  predicate Endpoint(p: Pin)
  {
    p.pinType == PrimaryOutput || p.isFlopInput
  }

  function Slack(p: Pin, early: bool): real
  {
    if early then p.earlySlk else p.lateSlk
  }

  /** Worst negative slack at a corner: the least endpoint slack, or 0 when
      none is negative. */
  function Wns(pins: seq<Pin>, early: bool): real
  {
    if |pins| == 0 then 0.0
    else if Endpoint(pins[|pins| - 1]) then Min(Wns(pins[..|pins| - 1], early), Slack(pins[|pins| - 1], early))
    else Wns(pins[..|pins| - 1], early)
  }

  /** Total negative slack at a corner: the sum of the negative endpoint
      slacks. */
  function Tns(pins: seq<Pin>, early: bool): real
  {
    if |pins| == 0 then 0.0
    else if Endpoint(pins[|pins| - 1]) then Tns(pins[..|pins| - 1], early) + Min(0.0, Slack(pins[|pins| - 1], early))
    else Tns(pins[..|pins| - 1], early)
  }

  /** The four timing figures in one pass over the pins. */
  method FoldSlacks(pins: seq<Pin>) returns (eWNS: real, eTNS: real, lWNS: real, lTNS: real)
    ensures eWNS == Wns(pins, true) && eTNS == Tns(pins, true)
    ensures lWNS == Wns(pins, false) && lTNS == Tns(pins, false)
  {
    eWNS, eTNS, lWNS, lTNS := 0.0, 0.0, 0.0, 0.0;
    var k := 0;
    while k < |pins|
      invariant 0 <= k <= |pins|
      invariant eWNS == Wns(pins[..k], true) && eTNS == Tns(pins[..k], true)
      invariant lWNS == Wns(pins[..k], false) && lTNS == Tns(pins[..k], false)
    {
      assert pins[..k + 1][..k] == pins[..k];
      var p := pins[k];
      if Endpoint(p) {
        eWNS := Min(eWNS, p.earlySlk);
        lWNS := Min(lWNS, p.lateSlk);
        eTNS := eTNS + Min(0.0, p.earlySlk);
        lTNS := lTNS + Min(0.0, p.lateSlk);
      }
      k := k + 1;
    }
    assert pins[..k] == pins;
  }

  /** The total is never above the worst, and neither is positive. */
  lemma {:induction false} TnsBelowWns(pins: seq<Pin>, early: bool)
    ensures Tns(pins, early) <= Wns(pins, early) <= 0.0
  {
    if |pins| > 0 {
      TnsBelowWns(pins[..|pins| - 1], early);
    }
  }

  /** The worst slack is the least endpoint slack, capped at 0. */
  lemma {:induction false} WnsIsWorst(pins: seq<Pin>, early: bool)
    ensures forall k :: 0 <= k < |pins| && Endpoint(pins[k]) ==> Wns(pins, early) <= Slack(pins[k], early)
    ensures Wns(pins, early) == 0.0 || exists k :: 0 <= k < |pins| && Endpoint(pins[k]) && Wns(pins, early) == Slack(pins[k], early)
  {
    if |pins| > 0 {
      var init := pins[..|pins| - 1];
      WnsIsWorst(init, early);
      assert forall k :: 0 <= k < |init| ==> init[k] == pins[k];
      if Wns(pins, early) != 0.0 && Wns(pins, early) != Slack(pins[|pins| - 1], early) {
        var k :| 0 <= k < |init| && Endpoint(init[k]) && Wns(init, early) == Slack(init[k], early);
        assert Endpoint(pins[k]) && Wns(pins, early) == Slack(pins[k], early);
      }
    }
  }

  /** No violation at a corner: every endpoint slack is non-negative exactly
      when the worst slack is 0, and exactly when the total is 0. */
  lemma {:induction false} NoViolations(pins: seq<Pin>, early: bool)
    ensures (forall k :: 0 <= k < |pins| && Endpoint(pins[k]) ==> Slack(pins[k], early) >= 0.0) <==> Wns(pins, early) == 0.0
    ensures Wns(pins, early) == 0.0 <==> Tns(pins, early) == 0.0
  {
    WnsIsWorst(pins, early);
    if |pins| > 0 {
      var init := pins[..|pins| - 1];
      NoViolations(init, early);
      TnsBelowWns(init, early);
      assert forall k :: 0 <= k < |init| ==> init[k] == pins[k];
    }
  }

  /** Only endpoints count, and each corner only through its own slack: two
      pin lists that agree on which pins are endpoints and on those pins'
      slacks at a corner have the same worst and total slack there. */
  lemma {:induction false} OnlyEndpointsCount(a: seq<Pin>, b: seq<Pin>, early: bool)
    requires |a| == |b|
    requires forall k :: 0 <= k < |a| ==> Endpoint(a[k]) == Endpoint(b[k])
    requires forall k :: 0 <= k < |a| && Endpoint(a[k]) ==> Slack(a[k], early) == Slack(b[k], early)
    ensures Wns(a, early) == Wns(b, early) && Tns(a, early) == Tns(b, early)
  {
    if |a| > 0 {
      OnlyEndpointsCount(a[..|a| - 1], b[..|b| - 1], early);
    }
  }
}
