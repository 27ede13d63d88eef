/** The text generator (llm_caller.py): try an ordered list of Claude models,
    skip a model that is not found, stop on any other API error, tolerate
    unexpected errors, and report every failing exit. The outcome of each
    generation call is scripted: `outcome(m)` is what calling model `m` does. */
module LlmCaller {
  import opened Common

  /** CLAUDE_MODELS, newest first. */
  const ClaudeModels: seq<string> := [
    "claude-3-5-sonnet-20241022",
    "claude-3-5-sonnet-20240620",
    "claude-3-sonnet-20240229",
    "claude-3-haiku-20240307"
  ]

  /** What one `client.messages.create` call does: return a message whose first
      block holds `text`, raise `anthropic.APIError`, or raise anything else. */
  datatype CallOutcome = Completed(text: string) | ApiError(message: string) | Unexpected(message: string)

  /** The not-found test, made on the error text as it is (case-sensitive):
      "not_found_error" or "404" occurs somewhere in it. */
  predicate IsNotFound(message: string)
    ensures IsNotFound(message) <==>
      exists i :: OccursAt(message, "not_found_error", i) || OccursAt(message, "404", i)
  {
    ContainsIffOccurs(message, "not_found_error");
    ContainsIffOccurs(message, "404");
    Contains(message, "not_found_error") || Contains(message, "404")
  }

  /** "insufficient_quota" holds "quota", so the first of the two quota tests
      never decides anything the second does not. */
  lemma QuotaSubsumes(s: string)
    ensures Contains(s, "insufficient_quota") ==> Contains(s, "quota")
  {
    if Contains(s, "insufficient_quota") {
      assert "insufficient_quota"[13..18] == "quota";
      ContainsPiece(s, "insufficient_quota", "quota", 13);
    }
  }

  /** The notification label of an API error that stops the ladder; both tests
      are made on the lower-cased error text, rate limit first. */
  function StopLabel(message: string): (tag: string)
    ensures tag == "Rate Limit" <==> Contains(Lower(message), "rate_limit")
    ensures tag == "Quota Exceeded" <==> !Contains(Lower(message), "rate_limit") && Contains(Lower(message), "quota")
    ensures tag == "API Error" <==> !Contains(Lower(message), "rate_limit") && !Contains(Lower(message), "quota")
  {
    var lower := Lower(message);
    QuotaSubsumes(lower);
    if Contains(lower, "rate_limit") then "Rate Limit"
    else if Contains(lower, "insufficient_quota") || Contains(lower, "quota") then "Quota Exceeded"
    else "API Error"
  }

  /** Whether the ladder goes on to the next model after this outcome: past
      a not-found API error, whatever else its text says, and past an
      unexpected error; never past a completed call or another API error. */
  predicate MovesOn(o: CallOutcome)
    ensures o.Completed? ==> !MovesOn(o)
    ensures o.ApiError? ==> (MovesOn(o) <==> IsNotFound(o.message))
    ensures o.Unexpected? ==> MovesOn(o)
  {
    (o.ApiError? && IsNotFound(o.message)) || o.Unexpected?
  }

  /** The text returned (empty on failure) and the actions taken. */
  datatype Reply = Reply(text: string, trace: seq<Action>)

  function Then(pre: seq<Action>, r: Reply): Reply
  {
    Reply(r.text, pre + r.trace)
  }

  /** The ladder from model `i` of `models` on, after the actions `done`; `notify` says
      whether a bot token and a chat id are both set. */
  function LadderFrom(models: seq<string>, outcome: string -> CallOutcome, i: nat, notify: bool, done: seq<Action>): Reply
    requires i <= |models|
    decreases |models| - i
  {
    if i == |models| then Reply("", done + Alert(notify, "Critical Error"))
    else
      var tried := done + [Generate(models[i])];
      match outcome(models[i])
      case Completed(text) => Reply(text, tried)
      case ApiError(message) =>
        if IsNotFound(message) then LadderFrom(models, outcome, i + 1, notify, tried)
        else Reply("", tried + Alert(notify, StopLabel(message)) + Alert(notify, "Critical Error"))
      case Unexpected(_) => LadderFrom(models, outcome, i + 1, notify, tried + Alert(notify, "Unexpected Error"))
  }

  /** `get_claude_response` as specified: nothing is tried when the client
      cannot be created. */
  function Ladder(clientOk: bool, outcome: string -> CallOutcome, botToken: string, chatId: string): Reply
  {
    if !clientOk then Reply("", [])
    else LadderFrom(ClaudeModels, outcome, 0, botToken != "" && chatId != "", [])
  }

  /** `get_claude_response`. The prompt, the API key, `max_tokens` and the
      temperature are passed through to the client unchanged and decide
      nothing here; `clientOk` is whether `anthropic.Anthropic(...)` succeeded. */
  method GetClaudeResponse(clientOk: bool, outcome: string -> CallOutcome, botToken: string, chatId: string)
    returns (text: string, trace: seq<Action>)
    ensures Reply(text, trace) == Ladder(clientOk, outcome, botToken, chatId)
    ensures !clientOk ==> text == "" && trace == []
  {
    text, trace := "", [];
    if !clientOk {
      return;
    }
    var notify := botToken != "" && chatId != "";
    var i := 0;
    while i < |ClaudeModels|
      invariant i <= |ClaudeModels|
      invariant text == ""
      invariant Ladder(clientOk, outcome, botToken, chatId) == LadderFrom(ClaudeModels, outcome, i, notify, trace)
    {
      var model := ClaudeModels[i];
      trace := trace + [Generate(model)];
      match outcome(model) {
        case Completed(response) =>
          text := response;
          return;
        case ApiError(message) =>
          if !IsNotFound(message) {
            trace := trace + Alert(notify, StopLabel(message));
            break;
          }
        case Unexpected(_) =>
          trace := trace + Alert(notify, "Unexpected Error");
      }
      i := i + 1;
    }
    trace := trace + Alert(notify, "Critical Error");
  }

  // ---------------------------------------------------------------------
  // Properties of the ladder
  // ---------------------------------------------------------------------

  /** The models called, in call order. */
  function Calls(trace: seq<Action>): seq<string>
  {
    if trace == [] then []
    else (if trace[0].Generate? then [trace[0].model] else []) + Calls(trace[1..])
  }

  lemma {:induction false} CallsAppend(a: seq<Action>, b: seq<Action>)
    ensures Calls(a + b) == Calls(a) + Calls(b)
    decreases |a|
  {
    if a == [] {
      assert a + b == b;
    } else {
      assert (a + b)[0] == a[0];
      assert (a + b)[1..] == a[1..] + b;
      CallsAppend(a[1..], b);
      var head := if a[0].Generate? then [a[0].model] else [];
      assert head + (Calls(a[1..]) + Calls(b)) == (head + Calls(a[1..])) + Calls(b);
    }
  }

  lemma AlertHasNoCalls(enabled: bool, category: string)
    ensures Calls(Alert(enabled, category)) == []
  {
    if enabled {
      assert Alert(enabled, category)[1..] == [];
    }
  }

  /** The ladder does not look at what was done before it: the actions
      `done` are only a prefix of its trace. */
  lemma {:induction false} LadderShift(models: seq<string>, outcome: string -> CallOutcome, i: nat, notify: bool, done: seq<Action>)
    requires i <= |models|
    ensures LadderFrom(models, outcome, i, notify, done) == Then(done, LadderFrom(models, outcome, i, notify, []))
    decreases |models| - i
  {
    if i == |models| {
      assert [] + Alert(notify, "Critical Error") == Alert(notify, "Critical Error");
    } else {
      var call := [Generate(models[i])];
      assert [] + call == call;
      match outcome(models[i])
      case Completed(_) =>
      case ApiError(message) =>
        if IsNotFound(message) {
          LadderShift(models, outcome, i + 1, notify, done + call);
          LadderShift(models, outcome, i + 1, notify, call);
          assert (done + call) + LadderFrom(models, outcome, i + 1, notify, []).trace
              == done + (call + LadderFrom(models, outcome, i + 1, notify, []).trace);
        } else {
          var stop, critical := Alert(notify, StopLabel(message)), Alert(notify, "Critical Error");
          assert done + call + stop + critical == done + (call + stop + critical);
        }
      case Unexpected(_) =>
        var pre := call + Alert(notify, "Unexpected Error");
        assert done + call + Alert(notify, "Unexpected Error") == done + pre;
        LadderShift(models, outcome, i + 1, notify, done + pre);
        LadderShift(models, outcome, i + 1, notify, pre);
        assert (done + pre) + LadderFrom(models, outcome, i + 1, notify, []).trace
            == done + (pre + LadderFrom(models, outcome, i + 1, notify, []).trace);
    }
  }

  /** The actions for model `i` when the ladder moves on past it: the call,
      then the "Unexpected Error" notification when the call raised. */
  function Passed(models: seq<string>, outcome: string -> CallOutcome, i: nat, notify: bool): seq<Action>
    requires i < |models|
  {
    [Generate(models[i])] + (if outcome(models[i]).Unexpected? then Alert(notify, "Unexpected Error") else [])
  }

  /** Moving on past model `i` is its actions followed by the ladder from `i + 1`. */
  lemma LadderMovesOn(models: seq<string>, outcome: string -> CallOutcome, i: nat, notify: bool)
    requires i < |models| && MovesOn(outcome(models[i]))
    ensures LadderFrom(models, outcome, i, notify, []) == Then(Passed(models, outcome, i, notify), LadderFrom(models, outcome, i + 1, notify, []))
  {
    var call := [Generate(models[i])];
    assert [] + call == call;
    if outcome(models[i]).Unexpected? {
      assert call + Alert(notify, "Unexpected Error") == Passed(models, outcome, i, notify);
    } else {
      assert call == Passed(models, outcome, i, notify);
    }
    LadderShift(models, outcome, i + 1, notify, Passed(models, outcome, i, notify));
  }

  /** Passing model `i` calls it once and notifies only an unexpected error. */
  lemma PassedActions(models: seq<string>, outcome: string -> CallOutcome, i: nat, notify: bool)
    requires i < |models|
    ensures Calls(Passed(models, outcome, i, notify)) == [models[i]]
    ensures Notifications(Passed(models, outcome, i, notify))
         == if notify && outcome(models[i]).Unexpected? then ["Unexpected Error"] else []
  {
    var call := [Generate(models[i])];
    var extra := if outcome(models[i]).Unexpected? then Alert(notify, "Unexpected Error") else [];
    assert call[1..] == [];
    CallsAppend(call, extra);
    NotificationsAppend(call, extra);
    if notify && outcome(models[i]).Unexpected? {
      assert extra[1..] == [];
    } else {
      assert extra == [];
    }
  }

  /** Moving on past model `i` adds exactly its call to the calls of the
      ladder from `i + 1`. */
  lemma CallsMovingOn(models: seq<string>, outcome: string -> CallOutcome, i: nat, notify: bool)
    requires i < |models| && MovesOn(outcome(models[i]))
    ensures Calls(LadderFrom(models, outcome, i, notify, []).trace)
         == [models[i]] + Calls(LadderFrom(models, outcome, i + 1, notify, []).trace)
  {
    LadderMovesOn(models, outcome, i, notify);
    PassedActions(models, outcome, i, notify);
    CallsAppend(Passed(models, outcome, i, notify), LadderFrom(models, outcome, i + 1, notify, []).trace);
  }

  /** Past the last model the ladder makes no call. */
  lemma CallsAtEnd(models: seq<string>, outcome: string -> CallOutcome, notify: bool)
    ensures Calls(LadderFrom(models, outcome, |models|, notify, []).trace) == []
  {
    assert [] + Alert(notify, "Critical Error") == Alert(notify, "Critical Error");
    AlertHasNoCalls(notify, "Critical Error");
  }

  /** The models are called in list order, each at most once, so at most
      four generation calls are made: the calls from model `i` on are a
      non-empty run of the list starting at `i`. */
  lemma {:induction false} LadderCallsInOrder(models: seq<string>, outcome: string -> CallOutcome, i: nat, notify: bool)
    requires i < |models|
    ensures var calls := Calls(LadderFrom(models, outcome, i, notify, []).trace);
      1 <= |calls| <= |models| - i && calls == models[i..i + |calls|]
    decreases |models| - i
  {
    if MovesOn(outcome(models[i])) {
      CallsMovingOn(models, outcome, i, notify);
      if i + 1 < |models| {
        LadderCallsInOrder(models, outcome, i + 1, notify);
        var tail := Calls(LadderFrom(models, outcome, i + 1, notify, []).trace);
        SliceCons(models, i, i + 1 + |tail|);
      } else {
        CallsAtEnd(models, outcome, notify);
        SliceCons(models, i, i + 1);
      }
    } else {
      CallsStopping(models, outcome, i, notify);
      SliceCons(models, i, i + 1);
    }
  }

  /** A model the ladder does not move on past is the last one called. */
  lemma CallsStopping(models: seq<string>, outcome: string -> CallOutcome, i: nat, notify: bool)
    requires i < |models| && !MovesOn(outcome(models[i]))
    ensures Calls(LadderFrom(models, outcome, i, notify, []).trace) == [models[i]]
  {
    LadderStopsAt(models, outcome, i, notify);
  }

  /** The "Unexpected Error" notifications sent for models `i` to `k - 1`. */
  function UnexpectedAlerts(models: seq<string>, outcome: string -> CallOutcome, i: nat, k: nat, notify: bool): seq<string>
    requires i <= k <= |models|
    decreases k - i
  {
    if i == k then []
    else (if notify && outcome(models[i]).Unexpected? then ["Unexpected Error"] else []) + UnexpectedAlerts(models, outcome, i + 1, k, notify)
  }

  /** The text and the notifications of the ladder from model `k` when `k` is
      the first model it does not move on past (`k` is the list length when
      it moves on past every model). */
  ghost predicate StopsAs(models: seq<string>, outcome: string -> CallOutcome, k: nat, notify: bool, r: Reply, before: seq<string>)
    requires k <= |models|
  {
    if k < |models| && outcome(models[k]).Completed? then
      r.text == outcome(models[k]).text && Notifications(r.trace) == before
    else
      r.text == ""
      && Notifications(r.trace) == before
         + (if notify && k < |models| then [StopLabel(outcome(models[k]).message)] else [])
         + (if notify then ["Critical Error"] else [])
  }

  /** Model `k`, which the ladder does not move on past, is its last call:
      a completed call returns its text with no notification, an API error
      notifies its stop label and then "Critical Error". */
  lemma LadderStopsAt(models: seq<string>, outcome: string -> CallOutcome, k: nat, notify: bool)
    requires k < |models| && !MovesOn(outcome(models[k]))
    ensures var r := LadderFrom(models, outcome, k, notify, []);
      Calls(r.trace) == [models[k]] && StopsAs(models, outcome, k, notify, r, [])
  {
    var call := [Generate(models[k])];
    assert [] + call == call;
    assert call[1..] == [];
    assert Notifications(call) == [];
    match outcome(models[k])
    case Completed(_) =>
    case ApiError(message) =>
      var stop, critical := Alert(notify, StopLabel(message)), Alert(notify, "Critical Error");
      AlertHasNoCalls(notify, StopLabel(message));
      AlertHasNoCalls(notify, "Critical Error");
      CallsAppend(call, stop);
      CallsAppend(call + stop, critical);
      NotificationsAppend(call, stop);
      NotificationsAppend(call + stop, critical);
      if notify {
        assert stop[1..] == [] && critical[1..] == [];
      }
  }

  /** Given the first model `k` from `i` on at which the ladder does not move
      on (`k` is the list length when it moves on past every model), exactly
      the models `i` to `k` are called, in order: no model after `k`. */
  lemma {:induction false} LadderCallsUntil(models: seq<string>, outcome: string -> CallOutcome, i: nat, k: nat, notify: bool)
    requires i <= k <= |models|
    requires forall j :: i <= j < k ==> MovesOn(outcome(models[j]))
    requires k < |models| ==> !MovesOn(outcome(models[k]))
    ensures Calls(LadderFrom(models, outcome, i, notify, []).trace) == models[i..if k < |models| then k + 1 else k]
    decreases k - i
  {
    if i == k {
      if k < |models| {
        LadderStopsAt(models, outcome, k, notify);
        assert [models[k]] == models[k..k + 1];
      } else {
        assert [] + Alert(notify, "Critical Error") == Alert(notify, "Critical Error");
        AlertHasNoCalls(notify, "Critical Error");
      }
    } else {
      LadderMovesOn(models, outcome, i, notify);
      PassedActions(models, outcome, i, notify);
      LadderCallsUntil(models, outcome, i + 1, k, notify);
      CallsAppend(Passed(models, outcome, i, notify), LadderFrom(models, outcome, i + 1, notify, []).trace);
      var hi := if k < |models| then k + 1 else k;
      assert [models[i]] + models[i + 1..hi] == models[i..hi];
    }
  }

  /** Given the same `k`, a successful call of model `k` returns its text and
      the only notifications are the "Unexpected Error" ones before it;
      otherwise the result is "" and those notifications are followed by the
      stop label (when an API error stopped the ladder) and "Critical Error". */
  lemma {:induction false} LadderDecidedAt(models: seq<string>, outcome: string -> CallOutcome, i: nat, k: nat, notify: bool)
    requires i <= k <= |models|
    requires forall j :: i <= j < k ==> MovesOn(outcome(models[j]))
    requires k < |models| ==> !MovesOn(outcome(models[k]))
    ensures StopsAs(models, outcome, k, notify, LadderFrom(models, outcome, i, notify, []), UnexpectedAlerts(models, outcome, i, k, notify))
    decreases k - i
  {
    if i == k {
      if k < |models| {
        LadderStopsAt(models, outcome, k, notify);
      } else {
        var critical := Alert(notify, "Critical Error");
        assert [] + critical == critical;
        if notify {
          assert critical[1..] == [];
        }
      }
    } else {
      LadderMovesOn(models, outcome, i, notify);
      PassedActions(models, outcome, i, notify);
      LadderDecidedAt(models, outcome, i + 1, k, notify);
      var pre, rest := Passed(models, outcome, i, notify), LadderFrom(models, outcome, i + 1, notify, []);
      StopsAsAfter(models, outcome, k, notify, pre, rest, UnexpectedAlerts(models, outcome, i + 1, k, notify));
    }
  }

  /** Actions in front of a ladder add their notifications in front of its own. */
  lemma StopsAsAfter(models: seq<string>, outcome: string -> CallOutcome, k: nat, notify: bool, pre: seq<Action>, r: Reply, before: seq<string>)
    requires k <= |models|
    requires StopsAs(models, outcome, k, notify, r, before)
    ensures StopsAs(models, outcome, k, notify, Then(pre, r), Notifications(pre) + before)
  {
    NotificationsAppend(pre, r.trace);
    if !(k < |models| && outcome(models[k]).Completed?) {
      var stop := if notify && k < |models| then [StopLabel(outcome(models[k]).message)] else [];
      var critical := if notify then ["Critical Error"] else [];
      PrependThree(Notifications(pre), before, stop, critical);
    }
  }

  /** Without both a bot token and a chat id no notification is sent. */
  lemma {:induction false} LadderQuietWithoutCredentials(clientOk: bool, outcome: string -> CallOutcome, botToken: string, chatId: string)
    requires botToken == "" || chatId == ""
    ensures Notifications(Ladder(clientOk, outcome, botToken, chatId).trace) == []
  {
    if clientOk {
      LadderQuietFrom(ClaudeModels, outcome, 0);
    }
  }

  lemma {:induction false} LadderQuietFrom(models: seq<string>, outcome: string -> CallOutcome, i: nat)
    requires i <= |models|
    ensures Notifications(LadderFrom(models, outcome, i, false, []).trace) == []
    decreases |models| - i
  {
    if i == |models| {
      assert LadderFrom(models, outcome, i, false, []).trace == [];
    } else if MovesOn(outcome(models[i])) {
      LadderMovesOn(models, outcome, i, false);
      PassedActions(models, outcome, i, false);
      LadderQuietFrom(models, outcome, i + 1);
      NotificationsAppend(Passed(models, outcome, i, false), LadderFrom(models, outcome, i + 1, false, []).trace);
    } else {
      LadderStopsAt(models, outcome, i, false);
    }
  }

  /** The ladder only calls models and sends notifications. */
  lemma {:induction false} LadderActions(models: seq<string>, outcome: string -> CallOutcome, i: nat, notify: bool)
    requires i <= |models|
    ensures forall a :: a in LadderFrom(models, outcome, i, notify, []).trace ==> a.Generate? || a.Notify?
    decreases |models| - i
  {
    if i == |models| {
      assert [] + Alert(notify, "Critical Error") == Alert(notify, "Critical Error");
    } else if MovesOn(outcome(models[i])) {
      LadderMovesOn(models, outcome, i, notify);
      LadderActions(models, outcome, i + 1, notify);
    } else {
      assert [] + [Generate(models[i])] == [Generate(models[i])];
    }
  }
}
