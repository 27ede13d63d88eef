/** The approval gate (telegram_handler.py, `request_telegram_approval`): send
    the draft with approve/deny buttons, then poll for updates, advancing the
    offset past every update seen, until a callback on the sent message
    decides or the deadline passes. The outcome of every Telegram call is
    scripted; the 300-second deadline is the number of poll rounds that fit
    in it, `|polls|`. */
module TelegramHandler {
  import opened Common

  const ApprovedText := "\U{2705} Approved. Tweeting..."
  const DeniedText := "\U{274C} Denied. Tweet discarded."
  const TimedOutText := "\U{231B} Timed out. No action taken."

  /** What sending the approval message yields: an ok response carrying the
      new message's id, a response that is not ok, or an exception (a network
      failure, or an ok body without `result.message_id`). */
  datatype SendOutcome = Sent(messageId: int) | SendRejected | SendRaised

  /** The part of an update the scan looks at:
      - a `callback_query` on message `messageId`, whose `data` may be absent;
      - an update without a `callback_query`;
      - an update whose `update_id`, or whose callback's `message.message_id`,
        is missing, which raises. */
  datatype UpdateBody =
    | CallbackQuery(messageId: int, data: Option<string>)
    | OtherUpdate
    | Malformed

  datatype Update = Update(updateId: int, body: UpdateBody)

  /** One `getUpdates` call: an ok response with its `result` list (absent is
      empty), a response that is not ok, or an exception. */
  datatype Poll = PollOk(updates: seq<Update>) | PollNotOk | PollRaised

  /** The value returned and the actions taken. */
  datatype Approval = Approval(approved: bool, trace: seq<Action>)

  /** How scanning a batch of updates ends: no callback on the message, a
      callback with this `data`, or an exception. */
  datatype Verdict = NoMatch | Matched(data: string) | Broke

  /** The verdict of a scan and the offset (`update_id`) it leaves. */
  datatype Scan = Scan(verdict: Verdict, offset: Option<int>)

  /** The `offset` parameter of a poll: only a truthy offset is sent. */
  function OffsetParam(offset: Option<int>): (param: Option<int>)
    ensures param.None? <==> offset.None? || offset.value == 0
    ensures param.Some? ==> param == offset
  {
    if offset.Some? && offset.value != 0 then offset else None
  }

  /** Whether the callback targets the message sent for approval. */
  predicate Targets(u: Update, messageId: int)
    ensures Targets(u, messageId) ==> !u.body.Malformed? && !u.body.OtherUpdate?
    ensures u.body.CallbackQuery? ==> (Targets(u, messageId) <==> u.body.messageId == messageId)
  {
    u.body.CallbackQuery? && u.body.messageId == messageId
  }

  /** Whether the scan stops at this update (it decides, or it raises). */
  predicate Stops(u: Update, messageId: int)
  {
    u.body.Malformed? || Targets(u, messageId)
  }

  /** Scanning a batch of updates in order. A scan that matches nothing has
      processed every update, so it leaves the offset one past the last. */
  function ScanBatch(updates: seq<Update>, messageId: int, offset: Option<int>): (s: Scan)
    ensures s.verdict.NoMatch? ==>
      s.offset == if updates == [] then offset else Some(updates[|updates| - 1].updateId + 1)
    decreases |updates|
  {
    if updates == [] then Scan(NoMatch, offset)
    else
      var u := updates[0];
      match u.body
      case Malformed => Scan(Broke, offset)
      case OtherUpdate => ScanBatch(updates[1..], messageId, Some(u.updateId + 1))
      case CallbackQuery(id, data) =>
        if id != messageId then ScanBatch(updates[1..], messageId, Some(u.updateId + 1))
        else if data.None? then Scan(Broke, Some(u.updateId + 1))
        else Scan(Matched(data.value), Some(u.updateId + 1))
  }

  /** The edit made for a decision and the value returned: only "approve"
      approves, and an edit that raises turns the answer into False. */
  function Decide(data: string, editRaises: bool, asked: seq<Action>): (r: Approval)
    ensures r.approved <==> data == "approve" && !editRaises
    ensures |r.trace| == |asked| + 1 && asked <= r.trace
    ensures r.trace[|asked|] == EditMessage(if data == "approve" then ApprovedText else DeniedText)
  {
    if data == "approve" then Approval(!editRaises, asked + [EditMessage(ApprovedText)])
    else Approval(false, asked + [EditMessage(DeniedText)])
  }

  /** The polls from round `k` on, with the offset reached so far, after the
      actions `done`. Polling only appends to those actions, and adds at
      least one. */
  function PollFrom(polls: seq<Poll>, k: nat, messageId: int, offset: Option<int>, editRaises: bool, done: seq<Action>): (r: Approval)
    requires k <= |polls|
    ensures done <= r.trace && |done| < |r.trace|
    decreases |polls| - k, 0
  {
    if k == |polls| then Approval(false, done + [EditMessage(TimedOutText)])
    else
      var asked := done + [GetUpdates(OffsetParam(offset))];
      match polls[k]
      case PollNotOk => PollFrom(polls, k + 1, messageId, offset, editRaises, asked)
      case PollRaised => Approval(false, asked)
      case PollOk(updates) => AfterScan(polls, k + 1, messageId, editRaises, asked, ScanBatch(updates, messageId, offset))
  }

  /** What follows the scan of the batch polled in round `k - 1`. */
  function AfterScan(polls: seq<Poll>, k: nat, messageId: int, editRaises: bool, asked: seq<Action>, scan: Scan): (r: Approval)
    requires k <= |polls|
    ensures asked <= r.trace
    decreases |polls| - k, 1
  {
    match scan.verdict
    case NoMatch => PollFrom(polls, k, messageId, scan.offset, editRaises, asked)
    case Broke => Approval(false, asked)
    case Matched(data) => Decide(data, editRaises, asked)
  }

  /** `request_telegram_approval` as specified. */
  function ApprovalRun(send: SendOutcome, polls: seq<Poll>, editRaises: bool): Approval
  {
    if send.Sent? then PollFrom(polls, 0, send.messageId, None, editRaises, [SendApproval])
    else Approval(false, [SendApproval])
  }

  /** `request_telegram_approval`. The token, chat id and draft only shape the
      requests; `editRaises` is whether `editMessageText` raises. */
  method RequestTelegramApproval(send: SendOutcome, polls: seq<Poll>, editRaises: bool) returns (approved: bool, trace: seq<Action>)
    ensures Approval(approved, trace) == ApprovalRun(send, polls, editRaises)
  {
    approved, trace := false, [SendApproval];
    if !send.Sent? {
      return;
    }
    ghost var goal := ApprovalRun(send, polls, editRaises);
    var messageId := send.messageId;
    var updateId: Option<int> := None;
    var k := 0;
    while k < |polls|
      invariant k <= |polls|
      invariant !approved
      invariant goal == PollFrom(polls, k, messageId, updateId, editRaises, trace)
    {
      assert goal == PollFrom(polls, k, messageId, updateId, editRaises, trace);
      trace := trace + [GetUpdates(OffsetParam(updateId))];
      var poll := polls[k];
      k := k + 1;
      match poll {
        case PollNotOk =>
          assert goal == PollFrom(polls, k, messageId, updateId, editRaises, trace);
          continue;
        case PollRaised =>
          assert goal == Approval(false, trace);
          return;
        case PollOk(updates) =>
          assert goal == AfterScan(polls, k, messageId, editRaises, trace, ScanBatch(updates, messageId, updateId));
          assert updates[0..] == updates;
          var j := 0;
          while j < |updates|
            invariant j <= |updates|
            invariant goal == AfterScan(polls, k, messageId, editRaises, trace, ScanBatch(updates[j..], messageId, updateId))
          {
            var u := updates[j];
            assert updates[j..][0] == u && updates[j..][1..] == updates[j + 1..];
            match u.body {
              case Malformed =>
                assert goal == Approval(false, trace);
                return;
              case OtherUpdate =>
                updateId := Some(u.updateId + 1);
              case CallbackQuery(id, data) =>
                updateId := Some(u.updateId + 1);
                if id == messageId {
                  if data.None? {
                    assert goal == Approval(false, trace);
                    return;
                  }
                  assert goal == Decide(data.value, editRaises, trace);
                  if data.value == "approve" {
                    trace := trace + [EditMessage(ApprovedText)];
                    approved := !editRaises;
                  } else {
                    trace := trace + [EditMessage(DeniedText)];
                  }
                  return;
                }
            }
            j := j + 1;
          }
          assert updates[j..] == [];
      }
    }
    trace := trace + [EditMessage(TimedOutText)];
  }

  // ---------------------------------------------------------------------
  // Properties of the scan
  // ---------------------------------------------------------------------

  /** The first update the scan stops at decides: updates before it only
      move the offset, the ones after it are not examined. A matching
      callback with data decides by that data and leaves the offset one past
      it; a malformed update, or a matching callback without data, raises. */
  lemma {:induction false} ScanStopsAt(updates: seq<Update>, messageId: int, offset: Option<int>, i: nat)
    requires i < |updates| && Stops(updates[i], messageId)
    requires forall j :: 0 <= j < i ==> !Stops(updates[j], messageId)
    ensures var s := ScanBatch(updates, messageId, offset);
      var u := updates[i];
      && s.verdict == (if u.body.Malformed? || u.body.data.None? then Broke else Matched(u.body.data.value))
      && s.offset == (if !u.body.Malformed? then Some(u.updateId + 1)
                      else if i == 0 then offset else Some(updates[i - 1].updateId + 1))
    decreases i
  {
    if i > 0 {
      assert !Stops(updates[0], messageId);
      var rest := updates[1..];
      assert forall j :: 0 <= j < i - 1 ==> rest[j] == updates[j + 1];
      ScanStopsAt(rest, messageId, Some(updates[0].updateId + 1), i - 1);
      assert rest[i - 1] == updates[i];
      if i > 1 {
        assert rest[i - 2] == updates[i - 1];
      }
    }
  }

  /** A batch with no callback on the message and nothing malformed is
      ignored, and leaves the offset one past its last update. */
  lemma {:induction false} ScanIgnores(updates: seq<Update>, messageId: int, offset: Option<int>)
    requires forall j :: 0 <= j < |updates| ==> !Stops(updates[j], messageId)
    ensures ScanBatch(updates, messageId, offset)
         == Scan(NoMatch, if updates == [] then offset else Some(updates[|updates| - 1].updateId + 1))
    decreases |updates|
  {
    if updates != [] {
      assert !Stops(updates[0], messageId);
      var rest := updates[1..];
      assert forall j :: 0 <= j < |rest| ==> rest[j] == updates[j + 1];
      ScanIgnores(rest, messageId, Some(updates[0].updateId + 1));
      if rest != [] {
        assert rest[|rest| - 1] == updates[|updates| - 1];
      }
    }
  }

  /** Update `i` is the first update of the batch at which the scan stops. */
  ghost predicate FirstStop(updates: seq<Update>, messageId: int, i: int)
  {
    && 0 <= i < |updates| && Stops(updates[i], messageId)
    && forall m :: 0 <= m < i ==> !Stops(updates[m], messageId)
  }

  /** A scan matches only at the first update it stops at, which is then a
      callback on the sent message carrying the matched data; a scan that
      matches nothing met no update it stops at. */
  lemma {:induction false} ScanVerdict(updates: seq<Update>, messageId: int, offset: Option<int>)
    ensures var s := ScanBatch(updates, messageId, offset);
      && (s.verdict.NoMatch? ==> forall m :: 0 <= m < |updates| ==> !Stops(updates[m], messageId))
      && (s.verdict.Matched? ==> exists i :: FirstStop(updates, messageId, i) && Targets(updates[i], messageId)
                                            && updates[i].body.data == Some(s.verdict.data))
    decreases |updates|
  {
    if updates != [] {
      var u := updates[0];
      if Stops(u, messageId) {
        assert FirstStop(updates, messageId, 0);
      } else {
        var rest := updates[1..];
        ScanVerdict(rest, messageId, Some(u.updateId + 1));
        var s := ScanBatch(rest, messageId, Some(u.updateId + 1));
        assert ScanBatch(updates, messageId, offset) == s;
        if s.verdict.NoMatch? {
          forall m | 0 <= m < |updates|
            ensures !Stops(updates[m], messageId)
          {
            if m > 0 {
              assert updates[m] == rest[m - 1];
            }
          }
        } else if s.verdict.Matched? {
          var i :| FirstStop(rest, messageId, i) && Targets(rest[i], messageId) && rest[i].body.data == Some(s.verdict.data);
          assert updates[i + 1] == rest[i];
          forall m | 0 <= m < i + 1
            ensures !Stops(updates[m], messageId)
          {
            if m > 0 {
              assert updates[m] == rest[m - 1];
            }
          }
          assert FirstStop(updates, messageId, i + 1);
        }
      }
    }
  }

  // ---------------------------------------------------------------------
  // Properties of the polling
  // ---------------------------------------------------------------------

  predicate IsPoll(a: Action)
  {
    a.GetUpdates?
  }

  /** A round that decides nothing: a failed poll, or a batch the scan
      ignores. */
  predicate Quiet(p: Poll, messageId: int)
  {
    p.PollNotOk? || (p.PollOk? && forall u :: u in p.updates ==> !Stops(u, messageId))
  }

  /** Every action of the polling is a poll, except the last, which may be
      the one edit of the message. */
  lemma {:induction false} PollActions(polls: seq<Poll>, k: nat, messageId: int, offset: Option<int>, editRaises: bool, done: seq<Action>)
    requires k <= |polls|
    ensures var r := PollFrom(polls, k, messageId, offset, editRaises, done);
      && |done| < |r.trace|
      && (forall i :: |done| <= i < |r.trace| - 1 ==> r.trace[i].GetUpdates?)
      && (r.trace[|r.trace| - 1].GetUpdates? || r.trace[|r.trace| - 1].EditMessage?)
    decreases |polls| - k
  {
    var r := PollFrom(polls, k, messageId, offset, editRaises, done);
    if k < |polls| {
      var asked := done + [GetUpdates(OffsetParam(offset))];
      var next: Option<int>;
      match polls[k] {
        case PollNotOk =>
          next := offset;
        case PollRaised =>
          return;
        case PollOk(updates) =>
          var scan := ScanBatch(updates, messageId, offset);
          if !scan.verdict.NoMatch? {
            return;
          }
          next := scan.offset;
      }
      PollActions(polls, k + 1, messageId, next, editRaises, asked);
      assert r.trace[|done|] == asked[|done|];
    }
  }

  /** True is returned exactly on the approve path: the message was edited to
      the approved text, as the last action, and that edit did not raise. */
  lemma {:induction false} PollApproved(polls: seq<Poll>, k: nat, messageId: int, offset: Option<int>, editRaises: bool, done: seq<Action>)
    requires k <= |polls|
    ensures var r := PollFrom(polls, k, messageId, offset, editRaises, done);
      |r.trace| > 0 && (r.approved <==> !editRaises && r.trace[|r.trace| - 1] == EditMessage(ApprovedText))
    decreases |polls| - k
  {
    if k < |polls| {
      var asked := done + [GetUpdates(OffsetParam(offset))];
      match polls[k]
      case PollNotOk =>
        PollApproved(polls, k + 1, messageId, offset, editRaises, asked);
      case PollRaised =>
      case PollOk(updates) =>
        var scan := ScanBatch(updates, messageId, offset);
        if scan.verdict.NoMatch? {
          PollApproved(polls, k + 1, messageId, scan.offset, editRaises, asked);
        }
    }
  }

  /** Round `j` is the first round from round `k` on that is not quiet, and
      its batch first stops at update `i`, a callback on the sent message. */
  ghost predicate DecidesAt(polls: seq<Poll>, k: nat, messageId: int, j: nat, i: nat)
  {
    && k <= j < |polls|
    && (forall m :: k <= m < j ==> Quiet(polls[m], messageId))
    && polls[j].PollOk? && FirstStop(polls[j].updates, messageId, i) && Targets(polls[j].updates[i], messageId)
  }

  /** The first callback on the sent message decides by its data: "approve"
      edits the message to the approved text and returns True (unless that
      edit raises), any other data edits it to the denied text and returns
      False. */
  lemma {:induction false} PollDecidedAt(polls: seq<Poll>, k: nat, messageId: int, offset: Option<int>, editRaises: bool,
                                         done: seq<Action>, j: nat, i: nat, d: string)
    requires DecidesAt(polls, k, messageId, j, i) && polls[j].updates[i].body.data == Some(d)
    ensures var r := PollFrom(polls, k, messageId, offset, editRaises, done);
      && (r.approved <==> d == "approve" && !editRaises)
      && |r.trace| > 0 && r.trace[|r.trace| - 1] == EditMessage(if d == "approve" then ApprovedText else DeniedText)
    decreases j - k
  {
    var asked := done + [GetUpdates(OffsetParam(offset))];
    if k == j {
      DecidedNow(polls, k, messageId, offset, editRaises, done, i, d);
    } else {
      QuietRound(polls, k, messageId, offset, editRaises, done);
      assert DecidesAt(polls, k + 1, messageId, j, i);
      PollDecidedAt(polls, k + 1, messageId, QuietOffset(polls[k], messageId, offset), editRaises, asked, j, i, d);
    }
  }

  /** The offset a quiet round hands on to the next round. */
  ghost function QuietOffset(p: Poll, messageId: int, offset: Option<int>): Option<int>
  {
    if p.PollOk? then ScanBatch(p.updates, messageId, offset).offset else offset
  }

  /** A quiet round only polls, and hands on to the next round. */
  lemma QuietRound(polls: seq<Poll>, k: nat, messageId: int, offset: Option<int>, editRaises: bool, done: seq<Action>)
    requires k < |polls| && Quiet(polls[k], messageId)
    ensures PollFrom(polls, k, messageId, offset, editRaises, done)
         == PollFrom(polls, k + 1, messageId, QuietOffset(polls[k], messageId, offset), editRaises,
                     done + [GetUpdates(OffsetParam(offset))])
  {
    match polls[k]
    case PollNotOk =>
    case PollOk(updates) =>
      forall m | 0 <= m < |updates|
        ensures !Stops(updates[m], messageId)
      {
        assert updates[m] in updates;
      }
      ScanIgnores(updates, messageId, offset);
  }

  /** A round whose batch first stops at a callback on the sent message
      decides by that callback's data. */
  lemma DecidedNow(polls: seq<Poll>, k: nat, messageId: int, offset: Option<int>, editRaises: bool,
                   done: seq<Action>, i: nat, d: string)
    requires DecidesAt(polls, k, messageId, k, i) && polls[k].updates[i].body.data == Some(d)
    ensures PollFrom(polls, k, messageId, offset, editRaises, done)
         == Decide(d, editRaises, done + [GetUpdates(OffsetParam(offset))])
  {
    ScanStopsAt(polls[k].updates, messageId, offset, i);
  }

  /** True is returned only when the first callback on the sent message
      carries "approve" and the edit did not raise. */
  lemma {:induction false} PollApprovedOnlyOnApprove(polls: seq<Poll>, k: nat, messageId: int, offset: Option<int>,
                                                     editRaises: bool, done: seq<Action>)
    requires k <= |polls|
    ensures PollFrom(polls, k, messageId, offset, editRaises, done).approved ==>
      !editRaises && exists j: nat, i: nat :: DecidesAt(polls, k, messageId, j, i) && polls[j].updates[i].body.data == Some("approve")
    decreases |polls| - k
  {
    if k < |polls| {
      var r := PollFrom(polls, k, messageId, offset, editRaises, done);
      var asked := done + [GetUpdates(OffsetParam(offset))];
      match polls[k]
      case PollNotOk =>
        PollApprovedOnlyOnApprove(polls, k + 1, messageId, offset, editRaises, asked);
        if r.approved {
          var j: nat, i: nat :| DecidesAt(polls, k + 1, messageId, j, i) && polls[j].updates[i].body.data == Some("approve");
          assert DecidesAt(polls, k, messageId, j, i);
        }
      case PollRaised =>
      case PollOk(updates) =>
        var scan := ScanBatch(updates, messageId, offset);
        ScanVerdict(updates, messageId, offset);
        assert r == AfterScan(polls, k + 1, messageId, editRaises, asked, scan);
        match scan.verdict
        case NoMatch =>
          PollApprovedOnlyOnApprove(polls, k + 1, messageId, scan.offset, editRaises, asked);
          assert r == PollFrom(polls, k + 1, messageId, scan.offset, editRaises, asked);
          if r.approved {
            var j: nat, i: nat :| DecidesAt(polls, k + 1, messageId, j, i) && polls[j].updates[i].body.data == Some("approve");
            forall u | u in updates
              ensures !Stops(u, messageId)
            {
              var m :| 0 <= m < |updates| && updates[m] == u;
            }
            assert DecidesAt(polls, k, messageId, j, i);
          }
        case Broke =>
          assert r == Approval(false, asked);
        case Matched(data) =>
          assert r == Decide(data, editRaises, asked);
          var i :| FirstStop(updates, messageId, i) && Targets(updates[i], messageId) && updates[i].body.data == Some(data);
          assert DecidesAt(polls, k, messageId, k, i);
    }
  }

  /** When no round decides, every round polls once and the message is
      edited to the timeout text; False is returned. */
  lemma {:induction false} PollTimesOut(polls: seq<Poll>, k: nat, messageId: int, offset: Option<int>, editRaises: bool, done: seq<Action>)
    requires k <= |polls|
    requires forall j :: k <= j < |polls| ==> Quiet(polls[j], messageId)
    ensures var r := PollFrom(polls, k, messageId, offset, editRaises, done);
      && !r.approved
      && |r.trace| > 0 && r.trace[|r.trace| - 1] == EditMessage(TimedOutText)
      && Count(r.trace, IsPoll) == Count(done, IsPoll) + (|polls| - k)
    decreases |polls| - k
  {
    var edit := EditMessage(TimedOutText);
    if k == |polls| {
      CountAppend(done, [edit], IsPoll);
      CountOne(edit, IsPoll);
    } else {
      var asked := done + [GetUpdates(OffsetParam(offset))];
      CountAppend(done, [GetUpdates(OffsetParam(offset))], IsPoll);
      CountOne(GetUpdates(OffsetParam(offset)), IsPoll);
      match polls[k]
      case PollNotOk =>
        PollTimesOut(polls, k + 1, messageId, offset, editRaises, asked);
      case PollOk(updates) =>
        assert forall j :: 0 <= j < |updates| ==> !Stops(updates[j], messageId) by {
          forall j | 0 <= j < |updates|
            ensures !Stops(updates[j], messageId)
          {
            assert updates[j] in updates;
          }
        }
        ScanIgnores(updates, messageId, offset);
        var scan := ScanBatch(updates, messageId, offset);
        PollTimesOut(polls, k + 1, messageId, scan.offset, editRaises, asked);
    }
  }

  /** While rounds remain, the next action is a poll carrying the current
      offset when it is truthy, and no offset otherwise. */
  lemma PollNextRequest(polls: seq<Poll>, k: nat, messageId: int, offset: Option<int>, editRaises: bool, done: seq<Action>)
    requires k < |polls|
    ensures var r := PollFrom(polls, k, messageId, offset, editRaises, done);
      |done| < |r.trace| && r.trace[|done|] == GetUpdates(if offset.Some? && offset.value != 0 then offset else None)
  {
    var asked := done + [GetUpdates(OffsetParam(offset))];
    assert asked[|done|] == GetUpdates(OffsetParam(offset));
  }

  /** The offset hand-off between rounds: a failed poll leaves the offset as
      it was, and an ignored batch moves it one past its last update. */
  lemma PollOffsetHandOff(polls: seq<Poll>, k: nat, messageId: int, offset: Option<int>, editRaises: bool, done: seq<Action>)
    requires k + 1 < |polls|
    ensures var r := PollFrom(polls, k, messageId, offset, editRaises, done);
      match polls[k]
      case PollNotOk => |done| + 1 < |r.trace| && r.trace[|done| + 1] == GetUpdates(OffsetParam(offset))
      case PollRaised => true
      case PollOk(updates) =>
        updates != [] && (forall j :: 0 <= j < |updates| ==> !Stops(updates[j], messageId))
        ==> |done| + 1 < |r.trace|
            && r.trace[|done| + 1] == GetUpdates(OffsetParam(Some(updates[|updates| - 1].updateId + 1)))
  {
    var asked := done + [GetUpdates(OffsetParam(offset))];
    match polls[k]
    case PollNotOk =>
      PollNextRequest(polls, k + 1, messageId, offset, editRaises, asked);
    case PollRaised =>
    case PollOk(updates) =>
      if updates != [] && (forall j :: 0 <= j < |updates| ==> !Stops(updates[j], messageId)) {
        ScanIgnores(updates, messageId, offset);
        PollNextRequest(polls, k + 1, messageId, Some(updates[|updates| - 1].updateId + 1), editRaises, asked);
      }
  }

  /** At most one poll per round. */
  lemma {:induction false} PollCountBound(polls: seq<Poll>, k: nat, messageId: int, offset: Option<int>, editRaises: bool, done: seq<Action>)
    requires k <= |polls|
    ensures Count(PollFrom(polls, k, messageId, offset, editRaises, done).trace, IsPoll) <= Count(done, IsPoll) + (|polls| - k)
    decreases |polls| - k
  {
    if k == |polls| {
      CountAppend(done, [EditMessage(TimedOutText)], IsPoll);
      CountOne(EditMessage(TimedOutText), IsPoll);
    } else {
      var asked := done + [GetUpdates(OffsetParam(offset))];
      CountAppend(done, [GetUpdates(OffsetParam(offset))], IsPoll);
      CountOne(GetUpdates(OffsetParam(offset)), IsPoll);
      match polls[k]
      case PollNotOk =>
        PollCountBound(polls, k + 1, messageId, offset, editRaises, asked);
      case PollRaised =>
      case PollOk(updates) =>
        var scan := ScanBatch(updates, messageId, offset);
        match scan.verdict
        case NoMatch =>
          PollCountBound(polls, k + 1, messageId, scan.offset, editRaises, asked);
        case Broke =>
        case Matched(data) =>
          var edit := if data == "approve" then EditMessage(ApprovedText) else EditMessage(DeniedText);
          CountAppend(asked, [edit], IsPoll);
          CountOne(edit, IsPoll);
    }
  }

  /** The whole gate: the approval message is sent first; when sending fails
      nothing is polled and False is returned; at most one poll is made per
      round; True means the message was sent and then edited to the approved
      text, as the last action. */
  lemma ApprovalGate(send: SendOutcome, polls: seq<Poll>, editRaises: bool)
    ensures var r := ApprovalRun(send, polls, editRaises);
      && |r.trace| > 0 && r.trace[0] == SendApproval
      && (!send.Sent? ==> r == Approval(false, [SendApproval]))
      && Count(r.trace, IsPoll) <= |polls|
      && (r.approved ==> send.Sent? && !editRaises && r.trace[|r.trace| - 1] == EditMessage(ApprovedText))
  {
    CountOne(SendApproval, IsPoll);
    if send.Sent? {
      PollCountBound(polls, 0, send.messageId, None, editRaises, [SendApproval]);
      PollApproved(polls, 0, send.messageId, None, editRaises, [SendApproval]);
    }
  }

  /** The gate sends the approval message once, as its first action, and
      otherwise only polls and edits that message. */
  lemma ApprovalActions(send: SendOutcome, polls: seq<Poll>, editRaises: bool)
    ensures var r := ApprovalRun(send, polls, editRaises);
      && |r.trace| > 0 && r.trace[0] == SendApproval
      && forall i :: 1 <= i < |r.trace| ==> r.trace[i].GetUpdates? || r.trace[i].EditMessage?
  {
    if send.Sent? {
      var r := ApprovalRun(send, polls, editRaises);
      PollActions(polls, 0, send.messageId, None, editRaises, [SendApproval]);
      assert r.trace[0] == [SendApproval][0];
    }
  }

  /** The gate returns True exactly when the approval message was sent, the
      first callback on it that the polling reaches before the deadline
      carries "approve", and the edit to the approved text did not raise. */
  lemma ApprovalDecision(send: SendOutcome, polls: seq<Poll>, editRaises: bool)
    ensures ApprovalRun(send, polls, editRaises).approved <==>
      && send.Sent? && !editRaises
      && exists j: nat, i: nat :: DecidesAt(polls, 0, send.messageId, j, i) && polls[j].updates[i].body.data == Some("approve")
  {
    if send.Sent? {
      PollApprovedOnlyOnApprove(polls, 0, send.messageId, None, editRaises, [SendApproval]);
      if !editRaises && exists j: nat, i: nat :: DecidesAt(polls, 0, send.messageId, j, i) && polls[j].updates[i].body.data == Some("approve") {
        var j: nat, i: nat :| DecidesAt(polls, 0, send.messageId, j, i) && polls[j].updates[i].body.data == Some("approve");
        PollDecidedAt(polls, 0, send.messageId, None, editRaises, [SendApproval], j, i, "approve");
      }
    }
  }
}
