/**
 * The vendor's colon-delimited text protocol as bot.py reads it: how one
 * `api_call` ends, the parsers for the replies to getBalance, getServices,
 * getNumberV2 and getStatus, and the two ways the bot classifies a status.
 */
module Vendor {
  import opened Wrappers
  import opened PyStr

  /** How the HTTP request made by one `api_call` ends. */
  datatype Transport =
    | Delivered(body: string)   // a reply below status 400; `body` is `r.text`
    | RequestTimeout            // requests.exceptions.Timeout
    | ConnectionFailure         // requests.exceptions.ConnectionError
    | HttpFailure(code: int)    // HTTPError from raise_for_status, with the code the wrapper read
    | OtherFailure              // any other exception

  /** The family of the message `safe_api_call` puts in its error record. */
  datatype ApiError = Slow | Unreachable | TooManyRequests | ServerFault | Busy | Unknown

  /** What `api_call` returns: {"status": "ok", "data": …} or {"status": "error", "message": …}. */
  datatype Response = Ok(data: string) | Failed(error: ApiError)

  /** The message `safe_api_call` picks for an HTTP error code. */
  function HttpErrorMessage(code: int): (e: ApiError)
    ensures e == TooManyRequests <==> code == 429
    ensures e == ServerFault <==> code >= 500
    ensures e == Busy <==> code != 429 && code < 500
  {
    if code == 429 then TooManyRequests
    else if code >= 500 then ServerFault
    else Busy
  }

  /** `api_call` wrapped in `safe_api_call`: the stripped body, or the error record. */
  function ApiCall(t: Transport): (r: Response)
    ensures r.Ok? <==> t.Delivered?
    ensures r.Ok? ==> r.data == Strip(t.body)
    ensures t.RequestTimeout? ==> r == Failed(Slow)
    ensures t.ConnectionFailure? ==> r == Failed(Unreachable)
    ensures t.HttpFailure? ==> r == Failed(HttpErrorMessage(t.code))
    ensures t.OtherFailure? ==> r == Failed(Unknown)
  {
    match t
    case Delivered(body) => Ok(Strip(body))
    case RequestTimeout => Failed(Slow)
    case ConnectionFailure => Failed(Unreachable)
    case HttpFailure(code) => Failed(HttpErrorMessage(code))
    case OtherFailure => Failed(Unknown)
  }

  /** Every reply the bot parses has no whitespace at either end. */
  lemma DeliveredDataTrimmed(t: Transport)
    requires ApiCall(t).Ok?
    ensures var d := ApiCall(t).data; d == [] || (!IsSpace(d[0]) && !IsSpace(d[|d| - 1]))
  {
  }

  /** What `get_balance` hands to `float`: the text after the first ':' of an
      ACCESS_BALANCE reply; `BalanceCrash` is the IndexError of a reply without ':'. */
  datatype Balance = NoBalance | BalanceText(amount: string) | BalanceCrash

  function GetBalance(r: Response): (b: Balance)
    ensures b.NoBalance? <==> !(r.Ok? && StartsWith(r.data, "ACCESS_BALANCE"))
    ensures b.BalanceCrash? <==> r.Ok? && StartsWith(r.data, "ACCESS_BALANCE") && ':' !in r.data
    ensures b.BalanceText? ==> r.data == r.data[..IndexOf(r.data, ':')] + [':'] + b.amount
  {
    if r.Ok? && StartsWith(r.data, "ACCESS_BALANCE") then
      var parts := SplitOnce(r.data, ':');
      if |parts| == 2 then BalanceText(parts[1]) else BalanceCrash
    else NoBalance
  }

  /** An ACCESS_BALANCE reply yields everything after its first ':'. */
  lemma GetBalanceReads(amount: string)
    ensures GetBalance(Ok("ACCESS_BALANCE:" + amount)) == BalanceText(amount)
  {
    assert "ACCESS_BALANCE:" + amount == "ACCESS_BALANCE" + [':'] + amount;
    SplitOnceJoined("ACCESS_BALANCE", ':', amount);
  }

  /** What one line of a getServices reply contributes: `code:name`, both stripped. */
  function ServiceEntry(line: string): (e: Option<(string, string)>)
    ensures e.None? <==> ':' !in line
    ensures e.Some? ==> line == SplitOnce(line, ':')[0] + [':'] + SplitOnce(line, ':')[1]
  {
    var parts := SplitOnce(line, ':');
    if |parts| == 2 then Some((Strip(parts[0]), Strip(parts[1]))) else None
  }

  /** A `code:name` line yields the stripped text before its first ':' as the code
      and the stripped rest, colons included, as the name. */
  lemma ServiceEntryReads(head: string, tail: string)
    requires ':' !in head
    ensures ServiceEntry(head + [':'] + tail) == Some((Strip(head), Strip(tail)))
  {
    SplitOnceJoined(head, ':', tail);
  }

  /** The entries of the lines read so far, in order. */
  function EntriesOf(lines: seq<string>): (es: seq<Option<(string, string)>>)
    ensures |es| == |lines|
    ensures forall k :: 0 <= k < |lines| ==> es[k] == ServiceEntry(lines[k])
  {
    seq(|lines|, k requires 0 <= k < |lines| => ServiceEntry(lines[k]))
  }

  /** Dictionary insertion of the entries in order: a later entry with the same
      code overwrites the earlier name. */
  function Collect(es: seq<Option<(string, string)>>): map<string, string>
    decreases |es|
  {
    if es == [] then map[]
    else
      var m := Collect(es[..|es| - 1]);
      match es[|es| - 1]
      case None => m
      case Some((code, name)) => m[code := name]
  }

  /** One more entry: `Collect` of a longer prefix inserts that entry, if any. */
  lemma CollectPush(es: seq<Option<(string, string)>>, i: nat)
    requires i < |es|
    ensures Collect(es[..i + 1]) ==
      match es[i]
      case None => Collect(es[..i])
      case Some((code, name)) => Collect(es[..i])[code := name]
  {
    assert es[..i + 1][..i] == es[..i];
  }

  /** The dictionary `get_services_vn` builds from the lines of the reply: at most
      one entry per line. */
  function ServicesOf(lines: seq<string>): (m: map<string, string>)
    ensures |m| <= |lines|
  {
    CollectSize(EntriesOf(lines));
    Collect(EntriesOf(lines))
  }

  /** Each entry adds at most one key. */
  lemma {:induction false} CollectSize(es: seq<Option<(string, string)>>)
    ensures |Collect(es)| <= |es|
    decreases |es|
  {
    if es != [] {
      CollectSize(es[..|es| - 1]);
    }
  }

  /** `get_services_vn`: an empty result for a failed call, otherwise one entry per
      line that holds a ':'. */
  method GetServicesVn(r: Response) returns (services: map<string, string>)
    ensures r.Failed? ==> services == map[]
    ensures r.Ok? ==> services == ServicesOf(SplitLines(r.data))
  {
    services := map[];
    if r.Failed? {
      return;
    }
    var lines := SplitLines(r.data);
    ghost var es := EntriesOf(lines);
    var i := 0;
    while i < |lines|
      invariant 0 <= i <= |lines|
      invariant services == Collect(es[..i])
    {
      var line := lines[i];
      CollectPush(es, i);
      if ':' in line {
        var parts := SplitOnce(line, ':');
        services := services[Strip(parts[0]) := Strip(parts[1])];
      }
      i := i + 1;
    }
    assert es[..i] == es;
  }

  /** The entry `e` is a `code:name` line whose stripped code is `code`. */
  ghost predicate Defines(e: Option<(string, string)>, code: string) {
    e.Some? && e.value.0 == code
  }

  lemma {:induction false} CollectKeys(es: seq<Option<(string, string)>>, code: string)
    ensures code in Collect(es) <==> exists i :: 0 <= i < |es| && Defines(es[i], code)
    decreases |es|
  {
    if es != [] {
      var n := |es| - 1;
      var init := es[..n];
      CollectKeys(init, code);
      assert forall i :: 0 <= i < n ==> init[i] == es[i];
      if !Defines(es[n], code) && code in Collect(init) {
        var i :| 0 <= i < n && Defines(init[i], code);
        assert Defines(es[i], code);
      }
    }
  }

  lemma {:induction false} CollectLastWins(es: seq<Option<(string, string)>>, code: string, i: nat)
    requires i < |es| && Defines(es[i], code)
    requires forall j :: i < j < |es| ==> !Defines(es[j], code)
    ensures code in Collect(es) && Collect(es)[code] == es[i].value.1
    decreases |es|
  {
    var n := |es| - 1;
    var init := es[..n];
    if i < n {
      assert forall j :: i < j < n ==> init[j] == es[j];
      CollectLastWins(init, code, i);
    }
  }

  /** A code is in the dictionary exactly when some line of the reply defines it. */
  lemma ServicesKeys(lines: seq<string>, code: string)
    ensures code in ServicesOf(lines) <==> exists i :: 0 <= i < |lines| && Defines(ServiceEntry(lines[i]), code)
  {
    var es := EntriesOf(lines);
    CollectKeys(es, code);
    if code in ServicesOf(lines) {
      var i :| 0 <= i < |es| && Defines(es[i], code);
      assert Defines(ServiceEntry(lines[i]), code);
    }
  }

  /** The name stored for a code comes from the last line that defines it. */
  lemma ServicesLastWins(lines: seq<string>, code: string, i: nat)
    requires i < |lines| && Defines(ServiceEntry(lines[i]), code)
    requires forall j :: i < j < |lines| ==> !Defines(ServiceEntry(lines[j]), code)
    ensures code in ServicesOf(lines) && ServicesOf(lines)[code] == ServiceEntry(lines[i]).value.1
  {
    CollectLastWins(EntriesOf(lines), code, i);
  }

  /** The number `get_number` reports for a successful rental. */
  datatype NumberInfo = NumberInfo(activationId: string, phone: string, price: string)

  /** `get_number`: ACCESS_NUMBER:id:phone[:price…], price "?" when absent. */
  function GetNumber(r: Response): (n: Option<NumberInfo>)
    ensures n.Some? ==> r.Ok? && StartsWith(r.data, "ACCESS_NUMBER")
    ensures n.Some? ==> ':' !in n.value.activationId && ':' !in n.value.phone && ':' !in n.value.price
  {
    if r.Ok? && StartsWith(r.data, "ACCESS_NUMBER") then
      var parts := Split(r.data, ':');
      if |parts| >= 3 then
        Some(NumberInfo(parts[1], parts[2], if |parts| > 3 then parts[3] else "?"))
      else None
    else None
  }

  lemma GetNumberFields(data: string)
    requires StartsWith(data, "ACCESS_NUMBER")
    ensures var fields := Split(data, ':');
      GetNumber(Ok(data)) ==
        if |fields| >= 3 then Some(NumberInfo(fields[1], fields[2], if |fields| > 3 then fields[3] else "?"))
        else None
  {
  }

  /** `get_number` finds a number exactly in a successful ACCESS_NUMBER reply with at
      least two ':' separators. */
  lemma GetNumberAccepts(r: Response)
    ensures GetNumber(r).Some? <==> r.Ok? && StartsWith(r.data, "ACCESS_NUMBER") && Count(r.data, ':') >= 2
  {
    if r.Ok? {
      SplitCount(r.data, ':');
    }
  }

  /** A reply whose ':'-separated fields start with an ACCESS_NUMBER field and hold
      at least three fields yields the second as id, the third as phone and the fourth
      (or "?") as price; anything after the fourth field is ignored. */
  lemma GetNumberReads(fields: seq<string>)
    requires |fields| >= 3 && StartsWith(fields[0], "ACCESS_NUMBER")
    requires forall k :: 0 <= k < |fields| ==> ':' !in fields[k]
    ensures GetNumber(Ok(Join(fields, ':'))) ==
      Some(NumberInfo(fields[1], fields[2], if |fields| > 3 then fields[3] else "?"))
  {
    var s := Join(fields, ':');
    JoinStartsWithHead(fields, ':');
    PrefixTransitive(s, fields[0], "ACCESS_NUMBER");
    SplitJoin(fields, ':');
    GetNumberFields(s);
  }

  /** `get_status`: the reply's text, or "ERROR" for a failed call. */
  function GetStatus(r: Response): (status: string)
    ensures r.Ok? ==> status == r.data
    ensures r.Failed? ==> status == "ERROR"
  {
    if r.Ok? then r.data else "ERROR"
  }

  /** How the watcher reads one status. */
  datatype Verdict = OtpReady | Closed | Pending

  const TerminalMarkers: seq<string> := ["STATUS_CANCEL", "STATUS_FINISH", "NO_ACTIVATION"]

  predicate IsTerminal(status: string) {
    Contains(status, "STATUS_CANCEL") || Contains(status, "STATUS_FINISH") || Contains(status, "NO_ACTIVATION")
  }

  /** The watcher's classification: STATUS_OK as a prefix first, then any terminal
      marker anywhere in the text, otherwise keep polling. */
  function Classify(status: string): Verdict {
    if StartsWith(status, "STATUS_OK") then OtpReady
    else if IsTerminal(status) then Closed
    else Pending
  }

  /** The watcher's `if`/`elif`/`else`: an OTP exactly for a STATUS_OK prefix, closed
      exactly when otherwise any of the terminal markers occurs, pending in all other
      cases. */
  lemma ClassifyCases(status: string)
    ensures Classify(status) == OtpReady <==> StartsWith(status, "STATUS_OK")
    ensures Classify(status) == Closed <==>
      !StartsWith(status, "STATUS_OK") && exists m :: m in TerminalMarkers && Contains(status, m)
    ensures Classify(status) == Pending <==>
      !StartsWith(status, "STATUS_OK") && forall m :: m in TerminalMarkers ==> !Contains(status, m)
  {
    assert TerminalMarkers[0] == "STATUS_CANCEL" && TerminalMarkers[1] == "STATUS_FINISH";
    assert TerminalMarkers[2] == "NO_ACTIVATION";
    if Contains(status, "STATUS_CANCEL") {
      assert TerminalMarkers[0] in TerminalMarkers;
    } else if Contains(status, "STATUS_FINISH") {
      assert TerminalMarkers[1] in TerminalMarkers;
    } else if Contains(status, "NO_ACTIVATION") {
      assert TerminalMarkers[2] in TerminalMarkers;
    }
  }

  /** A STATUS_OK prefix wins over any terminal marker later in the text. */
  lemma OkTakesPrecedence(rest: string)
    ensures Classify("STATUS_OK" + rest) == OtpReady
  {
  }

  /** A terminal marker anywhere in a status that is not STATUS_OK ends the watch. */
  lemma MarkerCloses(pre: string, marker: string, post: string)
    requires marker in TerminalMarkers
    requires !StartsWith(pre + marker + post, "STATUS_OK")
    ensures Classify(pre + marker + post) == Closed
  {
    ContainsInfix(pre, marker, post);
  }

  /** A failed status query is read as "keep polling". */
  lemma FailedQueryKeepsPolling(e: ApiError)
    ensures GetStatus(Failed(e)) == "ERROR"
    ensures Classify(GetStatus(Failed(e))) == Pending
  {
    ContainsTooLong("ERROR", "STATUS_CANCEL");
    ContainsTooLong("ERROR", "STATUS_FINISH");
    ContainsTooLong("ERROR", "NO_ACTIVATION");
  }

  /** `status.split(":", 1)[1]`; None is the IndexError of a status without ':'. */
  function OtpCode(status: string): (code: Option<string>)
    ensures code.None? <==> ':' !in status
    ensures code.Some? ==> status == status[..IndexOf(status, ':')] + [':'] + code.value
  {
    var parts := SplitOnce(status, ':');
    if |parts| == 2 then Some(parts[1]) else None
  }

  /** The code is everything after the first ':', colons included. */
  lemma OtpCodeReads(head: string, code: string)
    requires ':' !in head
    ensures OtpCode(head + ":" + code) == Some(code)
  {
    assert head + ":" + code == head + [':'] + code;
    SplitOnceJoined(head, ':', code);
  }

  /** How `cmd_check` reads one status; `ManualCrash` is the uncaught IndexError of
      a STATUS_OK without ':'. */
  datatype ManualVerdict = ManualOtp(code: string) | ManualExpired | ManualWaiting | ManualCrash

  function ManualCheck(status: string): (v: ManualVerdict)
    ensures v.ManualOtp? <==> StartsWith(status, "STATUS_OK") && ':' in status
    ensures v.ManualOtp? ==> OtpCode(status) == Some(v.code)
    ensures v.ManualCrash? <==> StartsWith(status, "STATUS_OK") && ':' !in status
    ensures v.ManualExpired? <==> !StartsWith(status, "STATUS_OK") && Contains(status, "NO_ACTIVATION")
  {
    if StartsWith(status, "STATUS_OK") then
      match OtpCode(status)
      case Some(code) => ManualOtp(code)
      case None => ManualCrash
    else if Contains(status, "NO_ACTIVATION") then ManualExpired
    else ManualWaiting
  }

  /** The manual check and the watcher agree on OTP and NO_ACTIVATION, and whatever
      keeps the watcher polling is "still waiting" to the manual check. */
  lemma ManualAgreesWithWatcher(status: string)
    ensures (ManualCheck(status).ManualOtp? || ManualCheck(status).ManualCrash?) <==> Classify(status) == OtpReady
    ensures ManualCheck(status).ManualExpired? ==> Classify(status) == Closed
    ensures Classify(status) == Pending ==> ManualCheck(status) == ManualWaiting
  {
  }

  /** The manual check knows only NO_ACTIVATION: a cancelled order still reads as
      waiting there, while the watcher stops on it. */
  lemma ManualIgnoresCancel()
    ensures Classify("STATUS_CANCEL") == Closed
    ensures ManualCheck("STATUS_CANCEL") == ManualWaiting
  {
    var s := "STATUS_CANCEL";
    assert !StartsWith(s, "STATUS_OK") by {
      assert s[7] != "STATUS_OK"[7];
    }
    ContainsInfix([], s, []);
    assert [] + s + [] == s;
    assert !StartsWith(s, "NO_ACTIVATION") by {
      assert s[0] != "NO_ACTIVATION"[0];
    }
    assert s[1..] == "TATUS_CANCEL";
    ContainsTooLong("TATUS_CANCEL", "NO_ACTIVATION");
  }
}
