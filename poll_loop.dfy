/**
  The polling loop of `main`: each cycle fetches the review service's answer,
  validates it, formats the status of the first homework and sends the text
  unless it equals the last text delivered. The only state is that last text.
  The network answer and the outcome of the chat send are inputs of a cycle.
*/
module PollLoop {
  import opened Wrappers
  import opened Json
  import opened Homework

  /** What the request to the review service produced: an error, or the decoded body. */
  datatype FetchOutcome = FetchFailed | Fetched(body: Json)

  /** The outside world's part in one cycle: the fetch, and whether a send would succeed. */
  datatype CycleInput = CycleInput(fetch: FetchOutcome, sendSucceeds: bool)

  /** What one cycle did. */
  datatype Event =
    | FetchError                  // the request or `.json()` raised
    | Rejected(error: Error)      // validation or formatting raised
    | Unchanged(message: string)  // same text as the last one delivered: nothing sent
    | Delivered(message: string)  // new text, sent
    | SendFailed(message: string) // new text, the send raised

  /** The state after a cycle and what the cycle did. */
  datatype Outcome = Outcome(next: Option<string>, event: Event)

  /** The cycle reached the send call. */
  predicate SendAttempted(e: Event) {
    e.Delivered? || e.SendFailed?
  }

  /** How far a cycle got before the comparison: no answer, an exception, or the text. */
  datatype Report = NoAnswer | Invalid(error: Error) | Formatted(message: string)

  /**
    Fetch, `check_response`, first homework, `parse_status`: the text a cycle
    compares and sends, or where it stopped.
  */
  function ReportOf(fetch: FetchOutcome): (r: Report)
    ensures r.NoAnswer? <==> fetch.FetchFailed?
    ensures r.Formatted? <==>
              fetch.Fetched? && WellFormedResponse(fetch.body)
              && ParseStatus(CheckResponse(fetch.body).value[0]).Ok?
    ensures r.Formatted? ==> ParseStatus(CheckResponse(fetch.body).value[0]) == Ok(r.message)
    ensures r.Invalid? ==>
              && fetch.Fetched?
              && (match CheckResponse(fetch.body)
                  case Err(e) => e == r.error
                  case Ok(homeworks) => ParseStatus(homeworks[0]) == Err(r.error))
  {
    match fetch
    case FetchFailed => NoAnswer
    case Fetched(body) =>
      match CheckResponse(body)
      case Err(e) => Invalid(e)
      case Ok(homeworks) =>
        match ParseStatus(homeworks[0])
        case Err(e) => Invalid(e)
        case Ok(message) => Formatted(message)
  }

  /** What decides the rest of a cycle: its report and whether a send would go through. */
  datatype Attempt = Attempt(report: Report, sendSucceeds: bool)

  function AttemptOf(input: CycleInput): Attempt {
    Attempt(ReportOf(input.fetch), input.sendSucceeds)
  }

  /**
    The rest of one pass of the loop body from state `prev`: compare, send,
    remember. The state becomes the new text only when the whole pass
    succeeds (equal text, or a send that went through); any exception leaves
    it as it was.
  */
  function Decide(prev: Option<string>, a: Attempt): (o: Outcome)
    ensures SendAttempted(o.event) <==> a.report.Formatted? && prev != Some(a.report.message)
    ensures o.next != prev ==> o.event.Delivered? && o.next == Some(o.event.message)
    ensures o.event.Delivered? <==> a.report.Formatted? && prev != Some(a.report.message) && a.sendSucceeds
    ensures o.event.Delivered? ==> o.next == Some(o.event.message) && prev != o.next
    ensures o.event.Unchanged? ==> o.next == prev == Some(o.event.message)
    ensures (o.event.Delivered? || o.event.Unchanged? || o.event.SendFailed?) ==>
              a.report == Formatted(o.event.message)
    ensures o.event.FetchError? <==> a.report.NoAnswer?
    ensures o.event.Rejected? <==> a.report.Invalid?
    ensures o.event.Rejected? ==> o.event.error == a.report.error
  {
    match a.report
    case NoAnswer => Outcome(prev, FetchError)
    case Invalid(e) => Outcome(prev, Rejected(e))
    case Formatted(message) =>
      if Some(message) == prev then Outcome(prev, Unchanged(message))
      else if a.sendSucceeds then Outcome(Some(message), Delivered(message))
      else Outcome(prev, SendFailed(message))
  }

  /** The loop's single piece of state, `prev_report`. */
  class Poller {
    var prevMessage: Option<string>

    /** Before the first cycle nothing has been delivered. */
    constructor ()
      ensures prevMessage == None
    {
      prevMessage := None;
    }

    /** One pass of the `try` block of the loop, with its `except` falling through. */
    method Step(input: CycleInput) returns (event: Event)
      modifies this
      ensures Outcome(prevMessage, event) == Decide(old(prevMessage), AttemptOf(input))
      ensures SendAttempted(event) ==> Some(event.message) != old(prevMessage)
      ensures prevMessage != old(prevMessage) ==> event == Delivered(prevMessage.value)
    {
      if input.fetch.FetchFailed? {
        return FetchError;
      }
      var homeworks := CheckResponse(input.fetch.body);
      if homeworks.Err? {
        return Rejected(homeworks.error);
      }
      var current := ParseStatus(homeworks.value[0]);
      if current.Err? {
        return Rejected(current.error);
      }
      var message := current.value;
      if Some(message) != prevMessage {
        if !input.sendSucceeds {
          return SendFailed(message);
        }
        event := Delivered(message);
      } else {
        event := Unchanged(message);
      }
      prevMessage := Some(message);
    }
  }

  /** The state and the events after a sequence of cycles. */
  datatype Trace = Trace(state: Option<string>, events: seq<Event>)

  /** The passes run in order from state `prev`. */
  function Replay(prev: Option<string>, attempts: seq<Attempt>): (t: Trace)
    ensures |t.events| == |attempts|
    decreases |attempts|
  {
    if attempts == [] then Trace(prev, [])
    else
      var before := Replay(prev, attempts[..|attempts| - 1]);
      var o := Decide(before.state, attempts[|attempts| - 1]);
      Trace(o.next, before.events + [o.event])
  }

  /** What each of the cycles leaves to the comparison and the send. */
  function AttemptsOf(cycles: seq<CycleInput>): seq<Attempt> {
    seq(|cycles|, k requires 0 <= k < |cycles| => AttemptOf(cycles[k]))
  }

  /** The texts that reached the chat, in order. */
  function DeliveredMessages(events: seq<Event>): (d: seq<string>)
    ensures forall m :: m in d <==> exists k :: 0 <= k < |events| && events[k] == Delivered(m)
  {
    if events == [] then []
    else
      var init := events[..|events| - 1];
      var last := events[|events| - 1];
      var d := DeliveredMessages(init) + (if last.Delivered? then [last.message] else []);
      assert forall k :: 0 <= k < |init| ==> init[k] == events[k];
      d
  }

  /** Failed sends are not remembered: the same text is sent again when the chat accepts it. */
  lemma FailedSendIsRetried(prev: Option<string>, report: Report)
    requires Decide(prev, Attempt(report, false)).event.SendFailed?
    ensures Decide(prev, Attempt(report, false)).next == prev
    ensures Decide(prev, Attempt(report, true)) ==
              Outcome(Some(report.message), Delivered(report.message))
  {
  }

  /**
    Two consecutive cycles that produce the same text, the first of whose sends
    succeeds, deliver it once, or not at all when it was already the last one
    delivered; the second cycle never sends, whatever its send would do.
  */
  lemma IdenticalCyclesDeliverOnce(prev: Option<string>, m: string, s2: bool)
    ensures var a := Attempt(Formatted(m), true);
            Replay(prev, [a, Attempt(Formatted(m), s2)]).events ==
              if prev == Some(m) then [Unchanged(m), Unchanged(m)] else [Delivered(m), Unchanged(m)]
  {
    var a := Attempt(Formatted(m), true);
    var b := Attempt(Formatted(m), s2);
    var first := Decide(prev, a);
    assert [a][..0] == [];
    assert Replay(prev, [a]) == Trace(first.next, [first.event]);
    assert [a, b][..1] == [a];
  }

  /** Running one more pass appends its event and moves to its state. */
  lemma ReplayStep(prev: Option<string>, attempts: seq<Attempt>)
    requires attempts != []
    ensures var before := Replay(prev, attempts[..|attempts| - 1]);
            var o := Decide(before.state, attempts[|attempts| - 1]);
            && Replay(prev, attempts).state == o.next
            && Replay(prev, attempts).events[..|attempts| - 1] == before.events
            && Replay(prev, attempts).events[|attempts| - 1] == o.event
            && DeliveredMessages(Replay(prev, attempts).events) ==
                 DeliveredMessages(before.events) + (if o.event.Delivered? then [o.event.message] else [])
  {
    var t := Replay(prev, attempts);
    assert t.events[..|t.events| - 1] == Replay(prev, attempts[..|attempts| - 1]).events;
  }

  /** The state always holds the last text delivered, and the starting state while none was. */
  lemma {:induction false} StateIsLastDelivered(prev: Option<string>, attempts: seq<Attempt>)
    ensures var t := Replay(prev, attempts);
            var d := DeliveredMessages(t.events);
            (d == [] ==> t.state == prev) && (d != [] ==> t.state == Some(d[|d| - 1]))
    decreases |attempts|
  {
    if attempts != [] {
      StateIsLastDelivered(prev, attempts[..|attempts| - 1]);
      ReplayStep(prev, attempts);
    }
  }

  /** No two neighbouring texts are equal, and the first differs from `prev`. */
  predicate NoRepeats(d: seq<string>, prev: Option<string>) {
    (d != [] ==> Some(d[0]) != prev) && forall k :: 0 <= k < |d| - 1 ==> d[k] != d[k + 1]
  }

  lemma AppendKeepsNoRepeats(d: seq<string>, m: string, prev: Option<string>)
    requires NoRepeats(d, prev)
    requires (if d == [] then prev else Some(d[|d| - 1])) != Some(m)
    ensures NoRepeats(d + [m], prev)
  {
    var e := d + [m];
    forall k | 0 <= k < |e| - 1 ensures e[k] != e[k + 1] {
      if k < |d| - 1 {
        assert e[k] == d[k] && e[k + 1] == d[k + 1];
      }
    }
  }

  /**
    The chat never receives the same text twice in a row, and the first text
    delivered differs from the starting state.
  */
  lemma {:induction false} NoRepeatedDelivery(prev: Option<string>, attempts: seq<Attempt>)
    ensures NoRepeats(DeliveredMessages(Replay(prev, attempts).events), prev)
    decreases |attempts|
  {
    if attempts != [] {
      var init := attempts[..|attempts| - 1];
      NoRepeatedDelivery(prev, init);
      StateIsLastDelivered(prev, init);
      ReplayStep(prev, attempts);
      var before := Replay(prev, init);
      var o := Decide(before.state, attempts[|attempts| - 1]);
      if o.event.Delivered? {
        AppendKeepsNoRepeats(DeliveredMessages(before.events), o.event.message, prev);
      }
    }
  }

  /** A prefix of the passes produces a prefix of the events. */
  lemma {:induction false} ReplayPrefix(prev: Option<string>, attempts: seq<Attempt>, j: nat)
    requires j <= |attempts|
    ensures Replay(prev, attempts[..j]).events == Replay(prev, attempts).events[..j]
    decreases |attempts|
  {
    if j < |attempts| {
      var init := attempts[..|attempts| - 1];
      ReplayPrefix(prev, init, j);
      assert init[..j] == attempts[..j];
    } else {
      assert attempts[..j] == attempts;
    }
  }

  /** Passes that never get as far as a text leave the state alone and send nothing. */
  lemma {:induction false} UnformattedKeepState(prev: Option<string>, attempts: seq<Attempt>)
    requires forall j :: 0 <= j < |attempts| ==> !attempts[j].report.Formatted?
    ensures Replay(prev, attempts).state == prev
    ensures forall j :: 0 <= j < |attempts| ==> !SendAttempted(Replay(prev, attempts).events[j])
    decreases |attempts|
  {
    if attempts != [] {
      var init := attempts[..|attempts| - 1];
      UnformattedKeepState(prev, init);
      ReplayStep(prev, attempts);
      var t := Replay(prev, attempts);
      forall j | 0 <= j < |attempts| ensures !SendAttempted(t.events[j]) {
        if j < |attempts| - 1 {
          assert t.events[j] == Replay(prev, init).events[j];
        }
      }
    }
  }

  /** The first cycle of a run that produces a text always tries to send it. */
  lemma FirstFormattedCycleSends(attempts: seq<Attempt>, k: nat)
    requires k < |attempts|
    requires forall j :: 0 <= j < k ==> !attempts[j].report.Formatted?
    requires attempts[k].report.Formatted?
    ensures SendAttempted(Replay(None, attempts).events[k])
  {
    var upTo := attempts[..k + 1];
    assert upTo[..k] == attempts[..k];
    UnformattedKeepState(None, attempts[..k]);
    ReplayStep(None, upTo);
    ReplayPrefix(None, attempts, k + 1);
  }

  /**
    Cycles whose text differs from the state and whose sends all fail leave
    the state as it was; each of them is a failed send.
  */
  lemma {:induction false} FailedSendsKeepState(prev: Option<string>, m: string, n: nat)
    requires prev != Some(m)
    ensures var t := Replay(prev, seq(n, _ => Attempt(Formatted(m), false)));
            && t.state == prev
            && forall j :: 0 <= j < n ==> t.events[j] == SendFailed(m)
    decreases n
  {
    if n > 0 {
      var attempts := seq(n, _ => Attempt(Formatted(m), false));
      var init := attempts[..n - 1];
      assert init == seq(n - 1, _ => Attempt(Formatted(m), false));
      FailedSendsKeepState(prev, m, n - 1);
      ReplayStep(prev, attempts);
      var t := Replay(prev, attempts);
      forall j | 0 <= j < n ensures t.events[j] == SendFailed(m) {
        if j < n - 1 {
          assert t.events[j] == Replay(prev, init).events[j];
        }
      }
    }
  }

  /**
    A new text is retried on every cycle until a send succeeds: after any
    number of failed sends, the first cycle whose send goes through delivers
    it and the state becomes that text.
  */
  lemma FailedSendsRetriedUntilDelivered(prev: Option<string>, m: string, n: nat)
    requires prev != Some(m)
    ensures var t := Replay(prev, seq(n, _ => Attempt(Formatted(m), false)) + [Attempt(Formatted(m), true)]);
            t.events[n] == Delivered(m) && t.state == Some(m)
  {
    var failed := seq(n, _ => Attempt(Formatted(m), false));
    var attempts := failed + [Attempt(Formatted(m), true)];
    assert attempts[..n] == failed;
    FailedSendsKeepState(prev, m, n);
    ReplayStep(prev, attempts);
  }

  /** The same cycle repeated any number of times delivers its text at most once. */
  lemma {:induction false} RepeatedCycleDeliversAtMostOnce(prev: Option<string>, a: Attempt, n: nat)
    ensures var d := DeliveredMessages(Replay(prev, seq(n, _ => a)).events);
            d == [] || (a.report.Formatted? && d == [a.report.message])
  {
    if n > 0 {
      var attempts := seq(n, _ => a);
      var init := attempts[..n - 1];
      assert init == seq(n - 1, _ => a);
      RepeatedCycleDeliversAtMostOnce(prev, a, n - 1);
      StateIsLastDelivered(prev, init);
      ReplayStep(prev, attempts);
      var before := DeliveredMessages(Replay(prev, init).events);
      if before != [] {
        assert Replay(prev, init).state == Some(a.report.message);
        assert !Decide(Replay(prev, init).state, a).event.Delivered?;
      }
    }
  }

  /**
    When the last delivered text came from a homework and the service now
    reports a different status under the same name, the cycle tries to send.
  */
  lemma StatusChangeIsSent(earlier: Json, current: Json, sendSucceeds: bool)
    requires ParseStatus(earlier).Ok? && ParseStatus(current).Ok?
    requires Get(earlier.fields, "homework_name") == Get(current.fields, "homework_name")
    requires Get(earlier.fields, "status") != Get(current.fields, "status")
    ensures SendAttempted(Decide(Some(ParseStatus(earlier).value),
                                 Attempt(Formatted(ParseStatus(current).value), sendSucceeds)).event)
  {
    ParseStatusInjective(earlier, current);
  }

  /**
    The answer `{"homeworks": [{"homework_name": "hw1", "status": "reviewing"}],
    "current_date": 1000}` seen on two cycles in a row, from a fresh start:
    the text is delivered on the first and the second stays quiet.
  */
  lemma ReviewingScenario()
    ensures var homework := Obj([Member("homework_name", Str("hw1")), Member("status", Str("reviewing"))]);
            var body := Obj([Member("homeworks", Arr([homework])), Member("current_date", Int(1000))]);
            var cycle := CycleInput(Fetched(body), true);
            var m := NoticePrefix + "hw1" + NoticeInfix + ReviewingVerdict;
            Replay(None, AttemptsOf([cycle, cycle])).events == [Delivered(m), Unchanged(m)]
  {
    var homeworkFields := [Member("homework_name", Str("hw1")), Member("status", Str("reviewing"))];
    var homework := Obj(homeworkFields);
    var bodyFields := [Member("homeworks", Arr([homework])), Member("current_date", Int(1000))];
    var body := Obj(bodyFields);
    var cycle := CycleInput(Fetched(body), true);
    var m := NoticePrefix + "hw1" + NoticeInfix + ReviewingVerdict;
    assert bodyFields[..1] == [Member("homeworks", Arr([homework]))];
    assert Lookup(bodyFields, "homeworks") == Lookup(bodyFields[..1], "homeworks");
    assert Get(bodyFields, "homeworks") == Arr([homework]);
    assert bodyFields[1].key == "current_date";
    assert CheckResponse(body) == Ok([homework]);
    assert Get(homeworkFields, "homework_name") == Str("hw1");
    assert Get(homeworkFields, "status") == Str("reviewing");
    assert ParseStatus(homework) == Ok(m);
    assert AttemptOf(cycle) == Attempt(Formatted(m), true);
    var a := Attempt(Formatted(m), true);
    assert AttemptsOf([cycle, cycle]) == [a, a];
    IdenticalCyclesDeliverOnce(None, m, true);
  }

  /**
    `main`: refuse to start without credentials; otherwise run the loop over
    the given cycles, starting from no delivered text.
  */
  method Run(practicumToken: Option<string>, telegramToken: Option<string>,
             telegramChatId: Option<string>, cycles: seq<CycleInput>)
    returns (started: bool, events: seq<Event>, finalState: Option<string>)
    ensures started <==> Usable(practicumToken) && Usable(telegramToken) && Usable(telegramChatId)
    ensures !started ==> events == [] && finalState == None
    ensures started ==> Trace(finalState, events) == Replay(None, AttemptsOf(cycles))
  {
    started := CheckTokens(practicumToken, telegramToken, telegramChatId);
    if !started {
      return false, [], None;
    }
    var poller := new Poller();
    events := [];
    var i := 0;
    while i < |cycles|
      invariant 0 <= i <= |cycles|
      invariant Trace(poller.prevMessage, events) == Replay(None, AttemptsOf(cycles[..i]))
    {
      assert AttemptsOf(cycles[..i + 1])[..i] == AttemptsOf(cycles[..i]);
      var event := poller.Step(cycles[i]);
      events := events + [event];
      i := i + 1;
    }
    assert cycles[..i] == cycles;
    finalState := poller.prevMessage;
  }
}
