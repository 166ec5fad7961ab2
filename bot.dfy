/**
 * The bot's process-wide state and the handlers that change it: the OTP
 * watcher `auto_check_otp`, the rental command `handle_text` and the manual
 * check `cmd_check`. Each vendor call is a `Response` handed in as a
 * parameter; each chat message is appended to a log.
 */
module Bot {
  import opened Wrappers
  import opened PyStr
  import opened Vendor

  /** The waits, in seconds, before the watcher's status queries. */
  const Intervals: seq<nat> := [5, 5, 7, 7, 10, 10, 15, 15, 20]

  /** The number of intervals, so the most status queries one watch makes. */
  const Rounds: nat := 9

  /** The seconds slept before the first `n` queries. */
  function Elapsed(n: nat): (t: nat)
    requires n <= Rounds
  {
    if n == 0 then 0 else Elapsed(n - 1) + Intervals[n - 1]
  }

  /** The whole schedule sleeps 94 seconds, and no prefix of it sleeps longer. */
  lemma {:induction false} ElapsedBounded(n: nat)
    requires n <= Rounds
    ensures Elapsed(n) <= Elapsed(Rounds) == 94
    decreases Rounds - n
  {
    assert Elapsed(Rounds) == 94 by {
      assert Elapsed(1) == 5 && Elapsed(2) == 10 && Elapsed(3) == 17;
      assert Elapsed(4) == 24 && Elapsed(5) == 34 && Elapsed(6) == 44;
      assert Elapsed(7) == 59 && Elapsed(8) == 74;
    }
    if n < Rounds {
      ElapsedBounded(n + 1);
    }
  }

  /** The registry key of a watch: `f"{chat_id}_{activation_id}"`. */
  function CheckKey(chatId: int, activationId: string): (key: string)
    ensures |key| > |activationId| + 1
    ensures key[..|key| - |activationId| - 1] == IntToString(chatId)
    ensures key[|key| - |activationId| - 1] == '_'
    ensures key[|key| - |activationId|..] == activationId
  {
    IntToString(chatId) + "_" + activationId
  }

  /** The key names one watch: distinct (chat, activation) pairs never share a key,
      because the decimal form of a chat id holds no '_'. */
  lemma CheckKeyInjective(c1: int, a1: string, c2: int, a2: string)
    requires CheckKey(c1, a1) == CheckKey(c2, a2)
    ensures c1 == c2 && a1 == a2
  {
    var x, y := IntToString(c1), IntToString(c2);
    assert '_' !in x && '_' !in y;
    assert x + "_" + a1 == x + ['_'] + a1;
    assert y + "_" + a2 == y + ['_'] + a2;
    SeparatedUnique(x, a1, y, a2, '_');
    IntToStringInjective(c1, c2);
  }

  /** One rented number, as `handle_text` stores it in `user_orders`. */
  datatype Order = Order(activationId: string, phone: string, price: string,
                         operator: string, service: string, time: int)

  /** What the bot says to a chat; the wording and the HTML are not modelled. */
  datatype Reply =
    | OtpArrived(code: string, phone: string)               // the watcher's OTP notice
    | OrderClosed                                           // the watcher's "order ended or cancelled"
    | WatchTimedOut                                         // the watcher's "no OTP after ~90s"
    | OrderPending                                          // handle_text: an order is still waiting
    | Rented(phone: string, activationId: string, price: string)
    | RentFailed(service: string, operator: string)
    | NoActiveOrder                                         // cmd_check without an order
    | ManualOtpFound(code: string)
    | ManualOrderGone
    | ManualStillWaiting

  datatype Message = Message(chat: int, reply: Reply)

  /** The two exceptions the watcher's `except` swallows. */
  datatype Fault =
    | CodeMissing    // `status.split(":", 1)[1]` of a STATUS_OK without ':'
    | OrderMissing   // `user_orders[chat_id]['phone']` while no order is stored

  /** How one call of the watcher ends. */
  datatype Outcome =
    | AlreadyWatching                       // the key was registered: returned at once
    | OtpSent(code: string, phone: string)  // STATUS_OK: the code was sent to the chat
    | OrderEnded                            // a terminal marker
    | TimedOut                              // every interval passed: the for/else notice
    | Crashed(fault: Fault)                 // an exception ended the watch silently

  /** The record of one call: status queries made, seconds slept, how it ended. */
  datatype WatchRun = WatchRun(polls: nat, waited: nat, outcome: Outcome)

  /** The watcher's reading of its `j`-th status reply. */
  function PollVerdict(replies: seq<Response>, j: nat): Verdict
    requires j < |replies|
  {
    Classify(GetStatus(replies[j]))
  }

  /** The status string of every reply, as `get_status` returns it. */
  function Statuses(replies: seq<Response>): (r: seq<string>)
    ensures |r| == |replies|
  {
    if replies == [] then [] else [GetStatus(replies[0])] + Statuses(replies[1..])
  }

  /** Status `j` is the status of reply `j`. */
  lemma {:induction false} StatusAt(replies: seq<Response>, j: nat)
    requires j < |replies|
    ensures Statuses(replies)[j] == GetStatus(replies[j])
    decreases j
  {
    if j > 0 {
      StatusAt(replies[1..], j - 1);
    }
  }

  /** The watcher's reading of every status. */
  function Verdicts(statuses: seq<string>): (r: seq<Verdict>)
    ensures |r| == |statuses|
  {
    if statuses == [] then [] else [Classify(statuses[0])] + Verdicts(statuses[1..])
  }

  /** What a STATUS_OK status leads to, given the order stored for the chat. */
  function OtpOutcome(status: string, order: Option<Order>): Outcome {
    match OtpCode(status)
    case None => Crashed(CodeMissing)
    case Some(code) => if order.None? then Crashed(OrderMissing) else OtpSent(code, order.value.phone)
  }

  /** How the watch ends at a status whose verdict is not Pending. */
  function StopOutcome(v: Verdict, status: string, order: Option<Order>): Outcome {
    if v == Closed then OrderEnded else OtpOutcome(status, order)
  }

  /** For every status, how the watch would end if it stopped there. */
  function Stops(statuses: seq<string>, order: Option<Order>): (r: seq<Outcome>)
    ensures |r| == |statuses|
  {
    if statuses == [] then [] else [StopOutcome(Classify(statuses[0]), statuses[0], order)] + Stops(statuses[1..], order)
  }

  /** How many status queries a watch makes and how it ends. */
  datatype Ending = Ending(polls: nat, outcome: Outcome)

  /** The watch from the `i`-th interval on, given each query's verdict and the
      outcome of stopping at it. */
  function Run(verdicts: seq<Verdict>, stops: seq<Outcome>, i: nat): (e: Ending)
    requires i <= Rounds <= |verdicts| <= |stops|
    ensures e.polls <= Rounds
    decreases Rounds - i
  {
    if i == Rounds then Ending(Rounds, TimedOut)
    else if verdicts[i] == Pending then Run(verdicts, stops, i + 1)
    else Ending(i + 1, stops[i])
  }

  /** An admitted watch, for the replies the vendor gives: the queries it makes, the
      seconds slept before them, and how it ends. */
  function Watch(replies: seq<Response>, order: Option<Order>): (r: WatchRun)
    requires Rounds <= |replies|
    ensures r.polls <= Rounds && r.waited == Elapsed(r.polls)
  {
    var statuses := Statuses(replies);
    var e := Run(Verdicts(statuses), Stops(statuses, order), 0);
    WatchRun(e.polls, Elapsed(e.polls), e.outcome)
  }

  /** The chat messages a finished watch has sent. */
  function Notices(chatId: int, outcome: Outcome): (ms: seq<Message>)
    ensures |ms| <= 1
    ensures forall k :: 0 <= k < |ms| ==> ms[k].chat == chatId
    ensures ms == [] <==> outcome.AlreadyWatching? || outcome.Crashed?
  {
    match outcome
    case OtpSent(code, phone) => [Message(chatId, OtpArrived(code, phone))]
    case OrderEnded => [Message(chatId, OrderClosed)]
    case TimedOut => [Message(chatId, WatchTimedOut)]
    case _ => []
  }

  /** One step of the watch: a Pending verdict moves on to the next interval, any
      other verdict ends the watch there. */
  lemma RunStep(verdicts: seq<Verdict>, stops: seq<Outcome>, i: nat)
    requires i < Rounds <= |verdicts| <= |stops|
    ensures verdicts[i] == Pending ==> Run(verdicts, stops, i) == Run(verdicts, stops, i + 1)
    ensures verdicts[i] != Pending ==> Run(verdicts, stops, i) == Ending(i + 1, stops[i])
  {
  }

  /** A watch from interval `i` stops within the schedule, never as an admission
      refusal, makes at least one more query unless it times out, and times out only
      after the last interval. */
  lemma {:induction false} RunBounds(verdicts: seq<Verdict>, stops: seq<Outcome>, i: nat)
    requires i <= Rounds <= |verdicts| <= |stops|
    requires forall j :: 0 <= j < |stops| ==> stops[j] != TimedOut && !stops[j].AlreadyWatching?
    ensures var r := Run(verdicts, stops, i);
      && i <= r.polls
      && !r.outcome.AlreadyWatching?
      && (r.outcome == TimedOut ==> r.polls == Rounds)
      && (r.outcome != TimedOut ==> i < r.polls)
    decreases Rounds - i
  {
    if i < Rounds {
      RunStep(verdicts, stops, i);
      if verdicts[i] == Pending {
        RunBounds(verdicts, stops, i + 1);
      }
    }
  }

  /** A watch from interval `i` on times out exactly when every remaining verdict
      is Pending. */
  lemma {:induction false} RunTimeout(verdicts: seq<Verdict>, stops: seq<Outcome>, i: nat)
    requires i <= Rounds <= |verdicts| <= |stops|
    requires forall j :: 0 <= j < |stops| ==> stops[j] != TimedOut
    ensures Run(verdicts, stops, i).outcome == TimedOut <==>
      forall j :: i <= j < Rounds ==> verdicts[j] == Pending
    decreases Rounds - i
  {
    if i < Rounds {
      RunStep(verdicts, stops, i);
      if verdicts[i] == Pending {
        RunTimeout(verdicts, stops, i + 1);
      }
    }
  }

  /** A watch from interval `i` on that does not time out stops at its first
      non-Pending verdict, and that query decides the outcome. */
  lemma {:induction false} RunStop(verdicts: seq<Verdict>, stops: seq<Outcome>, i: nat)
    requires i <= Rounds <= |verdicts| <= |stops|
    requires Run(verdicts, stops, i).outcome != TimedOut
    ensures var r := Run(verdicts, stops, i);
      && i < r.polls <= Rounds
      && (forall j :: i <= j < r.polls - 1 ==> verdicts[j] == Pending)
      && verdicts[r.polls - 1] != Pending
      && r.outcome == stops[r.polls - 1]
    decreases Rounds - i
  {
    RunStep(verdicts, stops, i);
    if verdicts[i] == Pending {
      RunStop(verdicts, stops, i + 1);
      var r := Run(verdicts, stops, i + 1);
      forall j | i <= j < r.polls - 1
        ensures verdicts[j] == Pending
      {
        if j > i {
          assert i + 1 <= j;
        }
      }
    }
  }

  /** Conversely, when every verdict from `i` up to `n` is Pending and the one at `n`
      is not, the watch stops at `n`. */
  lemma {:induction false} RunFirstStop(verdicts: seq<Verdict>, stops: seq<Outcome>, i: nat, n: nat)
    requires i <= n < Rounds <= |verdicts| <= |stops|
    requires forall j :: i <= j < n ==> verdicts[j] == Pending
    requires verdicts[n] != Pending
    ensures Run(verdicts, stops, i) == Ending(n + 1, stops[n])
    decreases n - i
  {
    RunStep(verdicts, stops, i);
    if i < n {
      RunFirstStop(verdicts, stops, i + 1, n);
    }
  }

  /** The verdict and the stopping outcome the watch reads at query `j` are those of
      reply `j`. */
  lemma ReadsReply(replies: seq<Response>, order: Option<Order>, j: nat)
    requires j < |replies|
    ensures Statuses(replies)[j] == GetStatus(replies[j])
    ensures Verdicts(Statuses(replies))[j] == PollVerdict(replies, j)
    ensures Stops(Statuses(replies), order)[j] == StopOutcome(PollVerdict(replies, j), GetStatus(replies[j]), order)
  {
    StatusAt(replies, j);
    AtIndex(Statuses(replies), order, j);
  }

  /** Both per-status sequences hold, at `j`, the reading of status `j`. */
  lemma {:induction false} AtIndex(statuses: seq<string>, order: Option<Order>, j: nat)
    requires j < |statuses|
    ensures Verdicts(statuses)[j] == Classify(statuses[j])
    ensures Stops(statuses, order)[j] == StopOutcome(Classify(statuses[j]), statuses[j], order)
    decreases j
  {
    if j > 0 {
      AtIndex(statuses[1..], order, j - 1);
    }
  }

  /** No stopping outcome is a timeout or an admission refusal. */
  lemma StopsAreStops(statuses: seq<string>, order: Option<Order>)
    ensures forall j :: 0 <= j < |statuses| ==>
      Stops(statuses, order)[j] != TimedOut && !Stops(statuses, order)[j].AlreadyWatching?
  {
    forall j | 0 <= j < |statuses|
      ensures Stops(statuses, order)[j] != TimedOut && !Stops(statuses, order)[j].AlreadyWatching?
    {
      AtIndex(statuses, order, j);
    }
  }

  /** Bounds: an admitted watch makes between one and nine status queries, sleeps the
      schedule's prefix before them (at most 94 seconds) and sends at most one message. */
  lemma WatchBounded(chatId: int, replies: seq<Response>, order: Option<Order>)
    requires Rounds <= |replies|
    ensures var r := Watch(replies, order);
      && 1 <= r.polls <= Rounds
      && r.waited == Elapsed(r.polls) <= 94
      && |Notices(chatId, r.outcome)| <= 1
  {
    var statuses := Statuses(replies);
    StopsAreStops(statuses, order);
    RunBounds(Verdicts(statuses), Stops(statuses, order), 0);
    ElapsedBounded(Watch(replies, order).polls);
  }

  /** Stop: unless the watch timed out, every query before its last one read Pending,
      the last is the first OTP or terminal status, and it decides the outcome. */
  lemma WatchStopsAtFirstVerdict(replies: seq<Response>, order: Option<Order>)
    requires Rounds <= |replies|
    ensures var r := Watch(replies, order);
      r.outcome != TimedOut ==>
        && 1 <= r.polls <= Rounds
        && (forall j :: 0 <= j < r.polls - 1 ==> PollVerdict(replies, j) == Pending)
        && PollVerdict(replies, r.polls - 1) != Pending
        && r.outcome == StopOutcome(PollVerdict(replies, r.polls - 1), GetStatus(replies[r.polls - 1]), order)
  {
    var statuses := Statuses(replies);
    var verdicts := Verdicts(statuses);
    var r := Watch(replies, order);
    if r.outcome != TimedOut {
      RunStop(verdicts, Stops(statuses, order), 0);
      forall j | 0 <= j < r.polls - 1
        ensures PollVerdict(replies, j) == Pending
      {
        ReadsReply(replies, order, j);
      }
      ReadsReply(replies, order, r.polls - 1);
    }
  }

  /** Conversely, the first reply that does not read Pending ends the watch, after
      that many queries and the schedule's prefix, with the outcome it decides. */
  lemma WatchFirstStop(replies: seq<Response>, order: Option<Order>, n: nat)
    requires n < Rounds <= |replies|
    requires forall j :: 0 <= j < n ==> PollVerdict(replies, j) == Pending
    requires PollVerdict(replies, n) != Pending
    ensures Watch(replies, order) ==
      WatchRun(n + 1, Elapsed(n + 1), StopOutcome(PollVerdict(replies, n), GetStatus(replies[n]), order))
  {
    var statuses := Statuses(replies);
    var verdicts := Verdicts(statuses);
    forall j | 0 <= j <= n
      ensures verdicts[j] == PollVerdict(replies, j)
    {
      ReadsReply(replies, order, j);
    }
    ReadsReply(replies, order, n);
    RunFirstStop(verdicts, Stops(statuses, order), 0, n);
  }

  /** A watch times out exactly when all nine queries read Pending, and then it has
      made all nine. */
  lemma WatchTimeoutAllPending(replies: seq<Response>, order: Option<Order>)
    requires Rounds <= |replies|
    ensures var r := Watch(replies, order);
      && (r.outcome == TimedOut <==> forall j :: 0 <= j < Rounds ==> PollVerdict(replies, j) == Pending)
      && (r.outcome == TimedOut ==> r.polls == Rounds)
  {
    var statuses := Statuses(replies);
    var verdicts, stops := Verdicts(statuses), Stops(statuses, order);
    StopsAreStops(statuses, order);
    RunTimeout(verdicts, stops, 0);
    RunBounds(verdicts, stops, 0);
    forall j | 0 <= j < Rounds
      ensures verdicts[j] == PollVerdict(replies, j)
    {
      ReadsReply(replies, order, j);
    }
  }

  /** Timeout: the timeout notice is sent exactly when all nine queries read Pending,
      and then after nine queries and 94 seconds. */
  lemma WatchTimeoutIff(chatId: int, replies: seq<Response>, order: Option<Order>)
    requires Rounds <= |replies|
    ensures var r := Watch(replies, order);
      && (Notices(chatId, r.outcome) == [Message(chatId, WatchTimedOut)] <==>
            forall j :: 0 <= j < Rounds ==> PollVerdict(replies, j) == Pending)
      && (r.outcome == TimedOut ==> r.polls == Rounds && r.waited == 94)
  {
    WatchTimeoutAllPending(replies, order);
    ElapsedBounded(Rounds);
  }

  /** A watch sends its one message unless an exception ended it. */
  lemma WatchNotifiesUnlessCrashed(chatId: int, replies: seq<Response>, order: Option<Order>)
    requires Rounds <= |replies|
    ensures var r := Watch(replies, order);
      |Notices(chatId, r.outcome)| == 1 <==> !r.outcome.Crashed?
  {
    var statuses := Statuses(replies);
    StopsAreStops(statuses, order);
    RunBounds(Verdicts(statuses), Stops(statuses, order), 0);
  }

  /** With an order stored, the watch never fails on the phone lookup, and an OTP
      notice carries that order's phone. */
  lemma WatchWithOrder(replies: seq<Response>, o: Order)
    requires Rounds <= |replies|
    ensures var r := Watch(replies, Some(o));
      && r.outcome != Crashed(OrderMissing)
      && (r.outcome.OtpSent? ==> r.outcome.phone == o.phone)
  {
    var statuses := Statuses(replies);
    var r := Watch(replies, Some(o));
    if r.outcome != TimedOut {
      RunStop(Verdicts(statuses), Stops(statuses, Some(o)), 0);
      ReadsReply(replies, Some(o), r.polls - 1);
    }
  }

  /** A `STATUS_OK:<code>` status stops the watch and yields `<code>`. */
  lemma OkStatusYieldsCode(code: string)
    ensures Classify("STATUS_OK" + ":" + code) == OtpReady
    ensures OtpCode("STATUS_OK" + ":" + code) == Some(code)
  {
    OtpCodeReads("STATUS_OK", code);
    OkTakesPrecedence(":" + code);
    assert "STATUS_OK" + ":" + code == "STATUS_OK" + (":" + code);
  }

  /** The seconds slept before the fifth query. */
  lemma ElapsedFive()
    ensures Elapsed(5) == 34
  {
    assert Elapsed(1) == 5 && Elapsed(2) == 10 && Elapsed(3) == 17 && Elapsed(4) == 24;
  }

  /** A worked run: three "still waiting" replies (such as "STATUS_WAIT_CODE") and a
      failed query, then a code on the fifth query, after 5 + 5 + 7 + 7 + 10 = 34
      seconds; the replies after the fifth are never read. */
  lemma OtpOnFifthQuery(replies: seq<Response>, o: Order, wait: string, code: string)
    requires Rounds <= |replies|
    requires Classify(wait) == Pending
    requires replies[0] == replies[1] == replies[3] == Ok(wait)
    requires replies[2] == Failed(Slow)
    requires replies[4] == Ok("STATUS_OK" + ":" + code)
    ensures Watch(replies, Some(o)) == WatchRun(5, 34, OtpSent(code, o.phone))
  {
    FailedQueryKeepsPolling(Slow);
    OkStatusYieldsCode(code);
    ElapsedFive();
    forall j | 0 <= j < 4
      ensures PollVerdict(replies, j) == Pending
    {
      if j != 2 {
        assert replies[j] == Ok(wait);
      }
    }
    WatchFirstStop(replies, Some(o), 4);
  }

  /** Every terminal marker holds an 'N', so a status without one that does not start
      with STATUS_OK keeps the watch polling; "STATUS_WAIT_CODE" is such a status. */
  lemma PollingWithoutN(status: string)
    requires 'N' !in status && !StartsWith(status, "STATUS_OK")
    ensures Classify(status) == Pending
  {
    assert "STATUS_CANCEL"[9] == 'N' && "STATUS_FINISH"[9] == 'N' && "NO_ACTIVATION"[0] == 'N';
    ContainsMissingChar(status, "STATUS_CANCEL", 'N');
    ContainsMissingChar(status, "STATUS_FINISH", 'N');
    ContainsMissingChar(status, "NO_ACTIVATION", 'N');
  }

  /** The service and operator a rental command names. */
  datatype Rental = Rental(service: string, operator: string)

  /** `message.text.strip().lower().split()`, then the first word as service and
      the second (or "any") as operator; None for blank input. */
  function ParseRental(text: string): (cmd: Option<Rental>)
    ensures cmd.Some? ==> IsWord(cmd.value.service)
    ensures cmd.Some? ==> cmd.value.operator == "any" || IsWord(cmd.value.operator)
  {
    var words := Words(Lower(Strip(text)));
    if |words| == 0 then None
    else Some(Rental(words[0], if |words| > 1 then words[1] else "any"))
  }

  /** Blank input does nothing, and any other input names a rental. */
  lemma ParsesUnlessBlank(text: string)
    ensures ParseRental(text).None? <==> AllSpace(text)
  {
    var t := Strip(text);
    StripBlank(text);
    WordsBlank(Lower(t));
    forall k | 0 <= k < |t|
      ensures IsSpace(Lower(t)[k]) <==> IsSpace(t[k])
    {
      LowerKeepsSpace(t[k]);
    }
    if t != [] {
      assert !IsSpace(t[0]);
    }
  }

  /** What `handle_text` leaves behind: the stored orders, the replies it sent and
      the activation id it starts a watcher for. */
  datatype TextEffect = TextEffect(orders: map<int, Order>, sent: seq<Message>, watch: Option<string>)

  /** `handle_text` on the parsed command `cmd` and the number `get_number` would
      report: blank input does nothing, a stored order is refused with the pending
      notice, a failed rental is reported, and a rented number is stored, reported and
      watched. */
  function TextStep(orders: map<int, Order>, uid: int, cmd: Option<Rental>, number: Option<NumberInfo>, now: int)
    : (e: TextEffect)
    ensures orders.Keys <= e.orders.Keys
    ensures e.watch.Some? <==> cmd.Some? && uid !in orders && number.Some?
    ensures e.watch.None? ==> e.orders == orders
    ensures e.watch.Some? ==>
      && e.watch.value == number.value.activationId
      && e.orders == orders[uid := Order(number.value.activationId, number.value.phone, number.value.price,
                                         cmd.value.operator, cmd.value.service, now)]
      && e.sent == [Message(uid, Rented(number.value.phone, number.value.activationId, number.value.price))]
    ensures cmd.None? ==> e.sent == []
    ensures cmd.Some? && uid in orders ==> e.sent == [Message(uid, OrderPending)]
    ensures cmd.Some? && uid !in orders && number.None? ==>
      e.sent == [Message(uid, RentFailed(cmd.value.service, cmd.value.operator))]
  {
    match cmd
    case None => TextEffect(orders, [], None)
    case Some(Rental(service, operator)) =>
      if uid in orders then TextEffect(orders, [Message(uid, OrderPending)], None)
      else
        match number
        case None => TextEffect(orders, [Message(uid, RentFailed(service, operator))], None)
        case Some(info) =>
          TextEffect(orders[uid := Order(info.activationId, info.phone, info.price, operator, service, now)],
                     [Message(uid, Rented(info.phone, info.activationId, info.price))],
                     Some(info.activationId))
  }

  ghost predicate IsLowerWord(w: string) {
    IsWord(w) && forall k :: 0 <= k < |w| ==> !('A' <= w[k] <= 'Z')
  }

  lemma LowerUnwords(ws: seq<string>)
    requires forall k :: 0 <= k < |ws| ==> IsLowerWord(ws[k])
    ensures Lower(Unwords(ws)) == Unwords(ws)
    decreases |ws|
  {
    if |ws| > 1 {
      LowerUnwords(ws[1..]);
      var t := Unwords(ws[1..]);
      assert Unwords(ws) == ws[0] + [' '] + t;
      var s := Unwords(ws);
      forall k | 0 <= k < |s|
        ensures LowerChar(s[k]) == s[k]
      {
        if k < |ws[0]| {
          assert s[k] == ws[0][k];
        } else if k > |ws[0]| {
          assert s[k] == t[k - |ws[0]| - 1];
          assert Lower(t)[k - |ws[0]| - 1] == LowerChar(t[k - |ws[0]| - 1]);
        }
      }
    }
  }

  lemma StripUnwords(ws: seq<string>)
    requires |ws| >= 1 && forall k :: 0 <= k < |ws| ==> IsWord(ws[k])
    ensures Strip(Unwords(ws)) == Unwords(ws)
  {
    var s := Unwords(ws);
    UnwordsEnds(ws);
    StripSurrounded([], s, []);
    assert [] + s + [] == s;
  }

  lemma {:induction false} UnwordsEnds(ws: seq<string>)
    requires |ws| >= 1 && forall k :: 0 <= k < |ws| ==> IsWord(ws[k])
    ensures var s := Unwords(ws); |s| > 0 && !IsSpace(s[0]) && !IsSpace(s[|s| - 1])
    decreases |ws|
  {
    if |ws| > 1 {
      UnwordsEnds(ws[1..]);
      assert Unwords(ws) == ws[0] + [' '] + Unwords(ws[1..]);
    }
  }

  /** Round trip: a command written as lower-case words separated by single spaces
      parses to its first word and its second word (or "any"); the rest is ignored. */
  lemma ParseRentalWords(ws: seq<string>)
    requires |ws| >= 1
    requires forall k :: 0 <= k < |ws| ==> IsLowerWord(ws[k])
    ensures ParseRental(Unwords(ws)) == Some(Rental(ws[0], if |ws| > 1 then ws[1] else "any"))
  {
    StripUnwords(ws);
    LowerUnwords(ws);
    WordsUnwords(ws);
  }

  /** The chat message `cmd_check` sends for a manual verdict; none for the crash. */
  function ManualReplies(chatId: int, v: ManualVerdict): seq<Message> {
    match v
    case ManualOtp(code) => [Message(chatId, ManualOtpFound(code))]
    case ManualExpired => [Message(chatId, ManualOrderGone)]
    case ManualWaiting => [Message(chatId, ManualStillWaiting)]
    case ManualCrash => []
  }

  /** The process-wide state of bot.py: `user_orders`, `active_checks` and the
      messages sent so far. A chat with no entry in `userOrders` is one whose
      `user_orders` value is None. */
  class BotState {
    var userOrders: map<int, Order>
    var activeChecks: set<string>
    var log: seq<Message>

    constructor ()
      ensures userOrders == map[] && activeChecks == {} && log == []
    {
      userOrders := map[];
      activeChecks := {};
      log := [];
    }

    /** `user_orders[chat_id]`. */
    function OrderOf(chatId: int): Option<Order>
      reads this`userOrders
    {
      if chatId in userOrders then Some(userOrders[chatId]) else None
    }

    /** `auto_check_otp(chat_id, activation_id)`, run to its end; `replies[j]` is the
        vendor's reply to the `j`-th status query. The key is registered, the polling
        body runs, and the `finally` removes the key whatever way the body ended. */
    method AutoCheckOtp(chatId: int, activationId: string, replies: seq<Response>) returns (run: WatchRun)
      requires Rounds <= |replies|
      modifies this`activeChecks, this`log
      ensures activeChecks == old(activeChecks)
      ensures CheckKey(chatId, activationId) in old(activeChecks) ==>
        run == WatchRun(0, 0, AlreadyWatching) && log == old(log)
      ensures CheckKey(chatId, activationId) !in old(activeChecks) ==>
        && CheckKey(chatId, activationId) !in activeChecks
        && run == Watch(replies, OrderOf(chatId))
        && log == old(log) + Notices(chatId, run.outcome)
    {
      var key := CheckKey(chatId, activationId);
      if key in activeChecks {
        return WatchRun(0, 0, AlreadyWatching);
      }
      activeChecks := activeChecks + {key};
      run := PollUntilDone(chatId, replies);
      activeChecks := activeChecks - {key};
    }

    /** The `try` body of `auto_check_otp`: sleep, query, classify, for each interval.
        Each `return` inside the loop is the source's `break` (or the exception that
        leaves the body); leaving the loop normally is the `for`'s `else`. */
    method PollUntilDone(chatId: int, replies: seq<Response>) returns (run: WatchRun)
      requires Rounds <= |replies|
      modifies this`log
      ensures run == Watch(replies, OrderOf(chatId))
      ensures log == old(log) + Notices(chatId, run.outcome)
    {
      ghost var order := OrderOf(chatId);
      ghost var statuses := Statuses(replies);
      ghost var verdicts, stops := Verdicts(statuses), Stops(statuses, order);
      ghost var target := Run(verdicts, stops, 0);
      var waited := 0;
      var i := 0;
      while i < |Intervals|
        invariant 0 <= i <= Rounds == |Intervals|
        invariant log == old(log)
        invariant waited == Elapsed(i)
        invariant OrderOf(chatId) == order
        invariant Run(verdicts, stops, i) == target
      {
        waited := waited + Intervals[i];
        RunStep(verdicts, stops, i);
        var stop := Query(chatId, replies, i, verdicts, stops);
        if stop.Some? {
          return WatchRun(i + 1, waited, stop.value);
        }
        i := i + 1;
      }
      log := log + [Message(chatId, WatchTimedOut)];
      run := WatchRun(Rounds, waited, TimedOut);
    }

    /** The `i`-th status check of the watcher, read against the verdict and the
        stopping outcome the reply gives. */
    method Query(chatId: int, replies: seq<Response>, i: nat, ghost verdicts: seq<Verdict>, ghost stops: seq<Outcome>)
        returns (stop: Option<Outcome>)
      requires i < |replies|
      requires verdicts == Verdicts(Statuses(replies))
      requires stops == Stops(Statuses(replies), OrderOf(chatId))
      modifies this`log
      ensures verdicts[i] == Pending ==> stop.None? && log == old(log)
      ensures verdicts[i] != Pending ==> stop == Some(stops[i]) && log == old(log) + Notices(chatId, stops[i])
    {
      ReadsReply(replies, OrderOf(chatId), i);
      stop := HandleStatus(chatId, GetStatus(replies[i]));
    }

    /** The `if`/`elif` of one watcher iteration: a STATUS_OK status sends the code
        after the first ':' with the order's phone, a terminal status sends the
        "ended" notice, anything else leaves the loop running (None). A STATUS_OK
        without ':' or a chat without an order raises before anything is sent. */
    method HandleStatus(chatId: int, status: string) returns (stop: Option<Outcome>)
      modifies this`log
      ensures Classify(status) == Pending ==> stop.None? && log == old(log)
      ensures Classify(status) != Pending ==>
        && stop == Some(StopOutcome(Classify(status), status, OrderOf(chatId)))
        && log == old(log) + Notices(chatId, stop.value)
    {
      if StartsWith(status, "STATUS_OK") {
        var code := OtpCode(status);
        if code.None? {
          return Some(Crashed(CodeMissing));
        }
        if chatId !in userOrders {
          return Some(Crashed(OrderMissing));
        }
        var phone := userOrders[chatId].phone;
        log := log + [Message(chatId, OtpArrived(code.value, phone))];
        return Some(OtpSent(code.value, phone));
      } else if IsTerminal(status) {
        log := log + [Message(chatId, OrderClosed)];
        return Some(OrderEnded);
      }
      return None;
    }

    /** `handle_text`: parse the command, refuse while an order is stored, otherwise
        rent with `numberReply` as the vendor's answer. Returns the activation id the
        watcher thread is started for; `now` stands for `datetime.now()`. */
    method HandleText(uid: int, text: string, numberReply: Response, now: int) returns (watch: Option<string>)
      modifies this`userOrders, this`log
      ensures var e := TextStep(old(userOrders), uid, ParseRental(text), GetNumber(numberReply), now);
        userOrders == e.orders && log == old(log) + e.sent && watch == e.watch
    {
      var words := Words(Lower(Strip(text)));
      if |words| == 0 {
        return None;
      }
      var service := words[0];
      var operator := if |words| > 1 then words[1] else "any";

      if uid in userOrders {
        log := log + [Message(uid, OrderPending)];
        return None;
      }

      var numberInfo := GetNumber(numberReply);
      if numberInfo.Some? {
        var info := numberInfo.value;
        userOrders := userOrders[uid := Order(info.activationId, info.phone, info.price, operator, service, now)];
        log := log + [Message(uid, Rented(info.phone, info.activationId, info.price))];
        watch := Some(info.activationId);
      } else {
        log := log + [Message(uid, RentFailed(service, operator))];
        watch := None;
      }
    }

    /** `handle_text` followed by the watcher it starts, run to its end before anything
        else happens. Because the order is stored before the watcher starts, the
        watcher's phone lookup cannot fail. */
    method RentAndWatch(uid: int, text: string, numberReply: Response, now: int, statusReplies: seq<Response>)
      returns (watch: Option<string>, run: Option<WatchRun>)
      requires Rounds <= |statusReplies|
      modifies this`userOrders, this`log, this`activeChecks
      ensures activeChecks == old(activeChecks)
      ensures var e := TextStep(old(userOrders), uid, ParseRental(text), GetNumber(numberReply), now);
        && watch == e.watch && userOrders == e.orders
        && (watch.None? ==> run.None? && log == old(log) + e.sent)
        && (watch.Some? && CheckKey(uid, watch.value) in old(activeChecks) ==>
              run == Some(WatchRun(0, 0, AlreadyWatching)) && log == old(log) + e.sent)
        && (watch.Some? && CheckKey(uid, watch.value) !in old(activeChecks) ==>
              && run.Some? && run.value == Watch(statusReplies, Some(userOrders[uid]))
              && log == old(log) + e.sent + Notices(uid, run.value.outcome))
      ensures watch.Some? <==> ParseRental(text).Some? && uid !in old(userOrders) && GetNumber(numberReply).Some?
      ensures run.Some? ==> uid in userOrders && run.value.outcome != Crashed(OrderMissing)
      ensures run.Some? && run.value.outcome.OtpSent? ==> run.value.outcome.phone == userOrders[uid].phone
    {
      watch := HandleText(uid, text, numberReply, now);
      if watch.Some? {
        var r := AutoCheckOtp(uid, watch.value, statusReplies);
        WatchWithOrder(statusReplies, userOrders[uid]);
        run := Some(r);
      } else {
        run := None;
      }
    }

    /** `cmd_check`: the manual status check for the chat's stored order;
        `statusReply` is the vendor's answer for that order. */
    method CmdCheck(chatId: int, statusReply: Response)
      modifies this`log
      ensures chatId !in userOrders ==> log == old(log) + [Message(chatId, NoActiveOrder)]
      ensures chatId in userOrders ==>
        log == old(log) + ManualReplies(chatId, ManualCheck(GetStatus(statusReply)))
    {
      if chatId !in userOrders {
        log := log + [Message(chatId, NoActiveOrder)];
        return;
      }
      var status := GetStatus(statusReply);
      if StartsWith(status, "STATUS_OK") {
        var code := OtpCode(status);
        if code.Some? {
          log := log + [Message(chatId, ManualOtpFound(code.value))];
        }
      } else if Contains(status, "NO_ACTIVATION") {
        log := log + [Message(chatId, ManualOrderGone)];
      } else {
        log := log + [Message(chatId, ManualStillWaiting)];
      }
    }
  }
}
