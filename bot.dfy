/** `run_bot` (main.py): scrape, save the CSV buffer, format the prompt,
    generate a draft, ask for approval, post, and clean up, each stage gated
    on the one before. Every outside effect is scripted by a `World`, and the
    run is described by the trace of actions it takes. */
module Bot {
  import opened Common
  import BotConfig
  import Scraper
  import TupleMaker
  import LlmCaller
  import TelegramHandler

  /** What `post_tweet` does: report success, report failure, or raise. */
  datatype PostOutcome = Posted | PostFailed | PostRaised

  /** The scripted outside world of one run:
      - `respond`: the response to each page request;
      - `saveOk`: whether writing the CSV buffer succeeds;
      - `readBack`: what `format_tweets_for_prompt` reads back from it;
      - `promptOk`: whether filling in the prompt template succeeds;
      - `generationRaises`: whether the call of `get_claude_response`
        raises out of it, into the catch-all of `run_bot`;
      - `clientOk`, `outcome`: the Anthropic client and its per-model calls;
      - `send`, `polls`, `editRaises`: the Telegram calls of the approval;
      - `post`: what `post_tweet` does. */
  datatype World = World(
    respond: nat -> Scraper.Response,
    saveOk: bool,
    readBack: TupleMaker.CsvFile,
    promptOk: bool,
    generationRaises: bool,
    clientOk: bool,
    outcome: string -> LlmCaller.CallOutcome,
    send: TelegramHandler.SendOutcome,
    polls: seq<TelegramHandler.Poll>,
    editRaises: bool,
    post: PostOutcome)

  /** The notification label sent after `post_tweet`: one label per
      outcome, and no two outcomes share one. */
  function PostLabel(p: PostOutcome): (tag: string)
    ensures tag == "Success" <==> p.Posted?
    ensures tag == "Posting Failed" <==> p.PostFailed?
    ensures tag == "Posting Error" <==> p.PostRaised?
  {
    match p
    case Posted => "Success"
    case PostFailed => "Posting Failed"
    case PostRaised => "Posting Error"
  }

  /** What each stage of a run came to: the scrape, the CSV write, the
      formatted prompt data, the prompt, the generation call, the generator's
      reply, the approval, and the post. */
  datatype Stages = Stages(
    scrape: Scraper.Scrape,
    saveOk: bool,
    formatted: string,
    promptOk: bool,
    generationRaises: bool,
    draft: LlmCaller.Reply,
    gate: TelegramHandler.Approval,
    post: PostOutcome)

  /** The stages of the run in a world, with the configuration's bot token
      and chat id. */
  function StagesOf(cfg: BotConfig.Config, w: World): Stages
  {
    Stages(
      Scraper.ScrapeFrom(w.respond, 0, [], None, 0, []),
      w.saveOk,
      TupleMaker.FormatTweetsForPrompt(w.readBack),
      w.promptOk,
      w.generationRaises,
      LlmCaller.Ladder(w.clientOk, w.outcome, cfg.telegramBotToken, cfg.telegramChatId),
      TelegramHandler.ApprovalRun(w.send, w.polls, w.editRaises),
      w.post)
  }

  /** The CSV buffer is written: the scrape was not stopped by a 401,
      collected at least one record, and the write succeeded. */
  predicate Saves(s: Stages)
  {
    !s.scrape.authFailed && s.scrape.records != [] && s.saveOk
  }

  /** The run reaches the generator and the generator returns: the CSV was
      written, formatting gave a non-empty result, the prompt was built, and
      the generation call did not raise. */
  predicate Drafts(s: Stages)
  {
    Saves(s) && s.formatted != "" && s.promptOk && !s.generationRaises
  }

  /** The run asks for approval: it drafted a non-empty tweet. */
  predicate AsksApproval(s: Stages)
  {
    Drafts(s) && s.draft.text != ""
  }

  /** The run posts: it asked for approval and the gate returned True. */
  predicate Posts(s: Stages)
  {
    AsksApproval(s) && s.gate.approved
  }

  /** The actions of a run, stage by stage. The early returns after the CSV
      is written (File Error aside) and the catch-all leave it in place: the
      catch-all's cleanup looks for the file name among the locals, where it
      never is. */
  function Trace(s: Stages): seq<Action>
  {
    if s.scrape.authFailed then s.scrape.trace
    else if s.scrape.records == [] then s.scrape.trace + [Notify("Scraping Failed")]
    else if !s.saveOk then s.scrape.trace + [Notify("File Error")]
    else
      var saved := s.scrape.trace + [SaveCsv];
      if s.formatted == "" then saved + [Notify("Data Processing Error")]
      else if !s.promptOk then saved + [Notify("Prompt Error")]
      else if s.generationRaises then saved + [Notify("Critical Error")]
      else
        var drafted := saved + s.draft.trace;
        if s.draft.text == "" then drafted + [Notify("AI Generation Failed"), RemoveCsv]
        else
          var asked := drafted + s.gate.trace;
          var posted := if s.gate.approved then asked + [PostTweet, Notify(PostLabel(s.post))] else asked;
          posted + [RemoveCsv]
  }

  /** The actions `run_bot` takes in a world. */
  function RunBotTrace(cfg: BotConfig.Config, w: World): seq<Action>
  {
    Trace(StagesOf(cfg, w))
  }

  /** `run_bot`. */
  method RunBot(cfg: BotConfig.Config, w: World) returns (trace: seq<Action>)
    ensures trace == RunBotTrace(cfg, w)
  {
    var records, scrapeTrace, authFailed := Scraper.ScrapeCommunity(w.respond);
    trace := scrapeTrace;
    if authFailed {
      return;
    }
    if records == [] {
      trace := trace + [Notify("Scraping Failed")];
      return;
    }
    if !w.saveOk {
      trace := trace + [Notify("File Error")];
      return;
    }
    trace := trace + [SaveCsv];
    var formatted := TupleMaker.FormatTweetsForPrompt(w.readBack);
    if formatted == "" {
      trace := trace + [Notify("Data Processing Error")];
      return;
    }
    if !w.promptOk {
      trace := trace + [Notify("Prompt Error")];
      return;
    }
    if w.generationRaises {
      trace := trace + [Notify("Critical Error")];
      return;
    }
    var generated, ladderTrace := LlmCaller.GetClaudeResponse(w.clientOk, w.outcome, cfg.telegramBotToken, cfg.telegramChatId);
    trace := trace + ladderTrace;
    if generated == "" {
      trace := trace + [Notify("AI Generation Failed"), RemoveCsv];
      return;
    }
    var approved, gateTrace := TelegramHandler.RequestTelegramApproval(w.send, w.polls, w.editRaises);
    trace := trace + gateTrace;
    if approved {
      trace := trace + [PostTweet, Notify(PostLabel(w.post))];
    }
    trace := trace + [RemoveCsv];
  }

  // ---------------------------------------------------------------------
  // Properties of a run
  // ---------------------------------------------------------------------

  predicate IsSave(a: Action)
  {
    a.SaveCsv?
  }

  predicate IsRemove(a: Action)
  {
    a.RemoveCsv?
  }

  predicate IsApprovalRequest(a: Action)
  {
    a.SendApproval?
  }

  predicate IsPost(a: Action)
  {
    a.PostTweet?
  }

  /** What each stage contributes: the scrape only page requests and
      notifications, the generator only model calls and notifications, and
      the approval first its request and then only polls and edits. */
  ghost predicate StageKinds(s: Stages)
  {
    && (forall a :: a in s.scrape.trace ==> a.GetPage? || a.Notify?)
    && (forall a :: a in s.draft.trace ==> a.Generate? || a.Notify?)
    && |s.gate.trace| > 0 && s.gate.trace[0] == SendApproval
    && (forall a :: a in s.gate.trace[1..] ==> a.GetUpdates? || a.EditMessage?)
  }

  /** The stages of every run keep to their kinds of action. */
  lemma StagesOfKinds(cfg: BotConfig.Config, w: World)
    ensures StageKinds(StagesOf(cfg, w))
  {
    var s := StagesOf(cfg, w);
    Scraper.ScrapeFromStart(w.respond);
    if w.clientOk {
      LlmCaller.LadderActions(LlmCaller.ClaudeModels, w.outcome, 0, cfg.telegramBotToken != "" && cfg.telegramChatId != "");
    }
    TelegramHandler.ApprovalActions(w.send, w.polls, w.editRaises);
    var rest := s.gate.trace[1..];
    forall a | a in rest
      ensures a.GetUpdates? || a.EditMessage?
    {
      var i :| 0 <= i < |rest| && rest[i] == a;
      assert a == s.gate.trace[i + 1];
    }
  }

  /** A kind of action that neither the scrape, the generator nor a
      notification produces. */
  ghost predicate StageFree(p: Action -> bool)
  {
    forall a: Action :: a.GetPage? || a.Notify? || a.Generate? ==> !p(a)
  }

  lemma NotifyFree(p: Action -> bool, note: string)
    requires StageFree(p)
    ensures !p(Notify(note))
  {
  }

  /** Counting on a run that stops before the generator. */
  lemma CountBeforeDraft(s: Stages, p: Action -> bool)
    requires StageFree(p) && StageKinds(s) && !Drafts(s)
    ensures Count(Trace(s), p) == (if Saves(s) && p(SaveCsv) then 1 else 0)
  {
    var scrape := s.scrape.trace;
    CountNone(scrape, p);
    if s.scrape.authFailed {
      return;
    }
    var note := if s.scrape.records == [] then "Scraping Failed"
                else if !s.saveOk then "File Error"
                else if s.formatted == "" then "Data Processing Error"
                else if !s.promptOk then "Prompt Error" else "Critical Error";
    var tail := if Saves(s) then [SaveCsv, Notify(note)] else [Notify(note)];
    assert Trace(s) == scrape + tail;
    CountAppend(scrape, tail, p);
    NotifyFree(p, note);
    CountOne(Notify(note), p);
    CountPair(SaveCsv, Notify(note), p);
  }

  /** Counting on the part of a run up to the generator's reply. */
  lemma CountDrafted(s: Stages, p: Action -> bool)
    requires StageFree(p) && StageKinds(s)
    ensures Count(s.scrape.trace + [SaveCsv] + s.draft.trace, p) == (if p(SaveCsv) then 1 else 0)
  {
    CountNone(s.scrape.trace, p);
    CountAppend(s.scrape.trace, [SaveCsv], p);
    CountOne(SaveCsv, p);
    CountNone(s.draft.trace, p);
    CountAppend(s.scrape.trace + [SaveCsv], s.draft.trace, p);
  }

  /** Counting on a run whose draft is empty. */
  lemma CountEmptyDraft(s: Stages, p: Action -> bool)
    requires StageFree(p) && StageKinds(s) && Drafts(s) && s.draft.text == ""
    ensures Count(Trace(s), p) == (if p(SaveCsv) then 1 else 0) + (if p(RemoveCsv) then 1 else 0)
  {
    var drafted := s.scrape.trace + [SaveCsv] + s.draft.trace;
    CountDrafted(s, p);
    CountAppend(drafted, [Notify("AI Generation Failed"), RemoveCsv], p);
    CountPair(Notify("AI Generation Failed"), RemoveCsv, p);
    NotifyFree(p, "AI Generation Failed");
  }

  /** Counting on a run that asks for approval. */
  lemma CountAsked(s: Stages, p: Action -> bool)
    requires StageFree(p) && StageKinds(s) && AsksApproval(s)
    ensures Count(Trace(s), p)
         == (if p(SaveCsv) then 1 else 0) + Count(s.gate.trace, p)
          + (if s.gate.approved && p(PostTweet) then 1 else 0) + (if p(RemoveCsv) then 1 else 0)
  {
    var drafted := s.scrape.trace + [SaveCsv] + s.draft.trace;
    var asked := drafted + s.gate.trace;
    var posted := if s.gate.approved then asked + [PostTweet, Notify(PostLabel(s.post))] else asked;
    CountDrafted(s, p);
    CountAppend(drafted, s.gate.trace, p);
    if s.gate.approved {
      CountAppend(asked, [PostTweet, Notify(PostLabel(s.post))], p);
      CountPair(PostTweet, Notify(PostLabel(s.post)), p);
      NotifyFree(p, PostLabel(s.post));
    }
    CountAppend(posted, [RemoveCsv], p);
    CountOne(RemoveCsv, p);
  }

  /** How many actions of a kind a run takes, for a kind that is neither a
      request, a model call nor a notification: the CSV write, the removal,
      the approval's own actions and the post, each counted when the run gets
      that far. */
  lemma CountInRun(s: Stages, p: Action -> bool)
    requires StageFree(p) && StageKinds(s)
    ensures Count(Trace(s), p)
         == (if Saves(s) && p(SaveCsv) then 1 else 0)
          + (if Drafts(s) && p(RemoveCsv) then 1 else 0)
          + (if AsksApproval(s) then Count(s.gate.trace, p) else 0)
          + (if Posts(s) && p(PostTweet) then 1 else 0)
  {
    if !Drafts(s) {
      CountBeforeDraft(s, p);
    } else if s.draft.text == "" {
      CountEmptyDraft(s, p);
    } else {
      CountAsked(s, p);
    }
  }

  /** The approval's own actions hold one approval request and no CSV
      action and no post. */
  lemma GateCounts(s: Stages)
    requires StageKinds(s)
    ensures Count(s.gate.trace, IsApprovalRequest) == 1
    ensures Count(s.gate.trace, IsSave) == 0 && Count(s.gate.trace, IsRemove) == 0
    ensures Count(s.gate.trace, IsPost) == 0
  {
    var gate := s.gate.trace;
    assert gate == [gate[0]] + gate[1..];
    assert forall a :: a in gate ==> a in [gate[0]] || a in gate[1..];
    CountNone(gate, IsSave);
    CountNone(gate, IsRemove);
    CountNone(gate, IsPost);
    CountNone(gate[1..], IsApprovalRequest);
    CountAppend([gate[0]], gate[1..], IsApprovalRequest);
    CountOne(gate[0], IsApprovalRequest);
  }

  /** The CSV buffer is written at most once and removed at most once; it is
      removed exactly when the run reaches the generator. So it is left
      behind exactly when the run stops after writing it and before
      generating: on "Data Processing Error", on "Prompt Error", and when the
      catch-all handles an exception from the generation step. */
  lemma BotCsvLifecycle(cfg: BotConfig.Config, w: World)
    ensures Count(RunBotTrace(cfg, w), IsSave) == (if Saves(StagesOf(cfg, w)) then 1 else 0)
    ensures Count(RunBotTrace(cfg, w), IsRemove) == (if Drafts(StagesOf(cfg, w)) then 1 else 0)
  {
    var s := StagesOf(cfg, w);
    StagesOfKinds(cfg, w);
    GateCounts(s);
    CountInRun(s, IsSave);
    CountInRun(s, IsRemove);
  }

  /** The draft is sent for approval at most once, and only when it is not
      empty. */
  lemma BotAsksOnce(cfg: BotConfig.Config, w: World)
    ensures Count(RunBotTrace(cfg, w), IsApprovalRequest) == (if AsksApproval(StagesOf(cfg, w)) then 1 else 0)
  {
    var s := StagesOf(cfg, w);
    StagesOfKinds(cfg, w);
    GateCounts(s);
    CountInRun(s, IsApprovalRequest);
  }

  /** The tweet is posted at most once, and exactly when the approval
      returned True; an exception or a timeout in the approval is not an
      approval. */
  lemma BotPostsOnlyWhenApproved(cfg: BotConfig.Config, w: World)
    ensures Count(RunBotTrace(cfg, w), IsPost) == (if Posts(StagesOf(cfg, w)) then 1 else 0)
  {
    var s := StagesOf(cfg, w);
    StagesOfKinds(cfg, w);
    GateCounts(s);
    CountInRun(s, IsPost);
  }

  /** An empty draft ends the run with the "AI Generation Failed"
      notification and the removal of the CSV buffer: nothing is sent for
      approval and nothing is posted. */
  lemma BotEmptyDraft(cfg: BotConfig.Config, w: World)
    requires Drafts(StagesOf(cfg, w)) && StagesOf(cfg, w).draft.text == ""
    ensures var t := RunBotTrace(cfg, w);
      && |t| >= 2 && t[|t| - 2..] == [Notify("AI Generation Failed"), RemoveCsv]
      && Count(t, IsApprovalRequest) == 0 && Count(t, IsPost) == 0
  {
    BotAsksOnce(cfg, w);
    BotPostsOnlyWhenApproved(cfg, w);
  }

  /** How a run ends at each of its exits: every early exit sends its own
      label, and only the generator's return and the end of the run remove
      the CSV buffer. */
  lemma TraceExits(s: Stages)
    ensures var t, saved := Trace(s), s.scrape.trace + [SaveCsv];
      && (s.scrape.authFailed ==> t == s.scrape.trace)
      && (!s.scrape.authFailed && s.scrape.records == [] ==> t == s.scrape.trace + [Notify("Scraping Failed")])
      && (!s.scrape.authFailed && s.scrape.records != [] && !s.saveOk ==> t == s.scrape.trace + [Notify("File Error")])
      && (Saves(s) && s.formatted == "" ==> t == saved + [Notify("Data Processing Error")])
      && (Saves(s) && s.formatted != "" && !s.promptOk ==> t == saved + [Notify("Prompt Error")])
      && (Saves(s) && s.formatted != "" && s.promptOk && s.generationRaises ==> t == saved + [Notify("Critical Error")])
      && (Drafts(s) && s.draft.text == "" ==> t == saved + s.draft.trace + [Notify("AI Generation Failed"), RemoveCsv])
      && (AsksApproval(s) && !s.gate.approved ==> t == saved + s.draft.trace + s.gate.trace + [RemoveCsv])
      && (Posts(s) ==> t == saved + s.draft.trace + s.gate.trace + [PostTweet, Notify(PostLabel(s.post)), RemoveCsv])
  {
  }

  /** How `run_bot` ends at each of its exits in a world: a 401 returns at
      once, right after the scrape's own "Auth Error"; the other exits end
      as `TraceExits` says, the post with the label of `post_tweet`'s
      outcome. */
  lemma BotExits(cfg: BotConfig.Config, w: World)
    ensures var s, t := StagesOf(cfg, w), RunBotTrace(cfg, w);
      var saved := s.scrape.trace + [SaveCsv];
      && (s.scrape.authFailed ==> t == s.scrape.trace && t != [] && t[|t| - 1] == Notify("Auth Error"))
      && (!s.scrape.authFailed && s.scrape.records == [] ==> t == s.scrape.trace + [Notify("Scraping Failed")])
      && (!s.scrape.authFailed && s.scrape.records != [] && !s.saveOk ==> t == s.scrape.trace + [Notify("File Error")])
      && (Saves(s) && s.formatted == "" ==> t == saved + [Notify("Data Processing Error")])
      && (Saves(s) && s.formatted != "" && !s.promptOk ==> t == saved + [Notify("Prompt Error")])
      && (Saves(s) && s.formatted != "" && s.promptOk && s.generationRaises ==> t == saved + [Notify("Critical Error")])
      && (Drafts(s) && s.draft.text == "" ==> t == saved + s.draft.trace + [Notify("AI Generation Failed"), RemoveCsv])
      && (AsksApproval(s) && !s.gate.approved ==> t == saved + s.draft.trace + s.gate.trace + [RemoveCsv])
      && (Posts(s) && s.post.Posted? ==> t == saved + s.draft.trace + s.gate.trace + [PostTweet, Notify("Success"), RemoveCsv])
      && (Posts(s) && s.post.PostFailed? ==> t == saved + s.draft.trace + s.gate.trace + [PostTweet, Notify("Posting Failed"), RemoveCsv])
      && (Posts(s) && s.post.PostRaised? ==> t == saved + s.draft.trace + s.gate.trace + [PostTweet, Notify("Posting Error"), RemoveCsv])
  {
    TraceExits(StagesOf(cfg, w));
    ScrapeAbandons(w);
  }

  /** The scrape of a run stops for a 401 exactly when its last action is
      the "Auth Error" notification. */
  lemma ScrapeAbandons(w: World)
    ensures var sc := Scraper.ScrapeFrom(w.respond, 0, [], None, 0, []);
      sc.authFailed <==> sc.trace != [] && sc.trace[|sc.trace| - 1] == Notify("Auth Error")
  {
    Scraper.ScrapeAuthFailed(w.respond, 0, [], None, 0, []);
  }
}
