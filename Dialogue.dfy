/** One conversational turn (`process_message` and `get_job_detail`) and the per-session
    state it keeps: a detail request that matched several postings is parked in the
    ambiguous store until the user answers with a number. The routing is a fixed,
    priority-ordered keyword dispatch on the lower-cased message. */
module Dialogue {
  import opened Text
  import opened Jobs
  import opened Moderation
  import opened Search
  import opened Wrappers

  /** A detail request waiting for the user to pick one posting by number: every
      matching posting, best first, and the detail asked for. */
  datatype Pending = Pending(matches: seq<Job>, detailType: string)

  /** `ambiguous_store`: session id to its waiting request. */
  type Store = map<string, Pending>

  /** What a turn reads and never changes: the postings, the similarity used to rank
      them, and the session details (`session_details`, in file order, values already
      rendered as text). */
  datatype Config = Config(corpus: seq<Job>, score: Scorer, sessionDetails: seq<(string, string)>)

  /** The text sent back and the ambiguous store after the turn. */
  datatype Reply = Reply(response: string, store: Store)

  /** Where the keyword dispatch sends a message. */
  datatype Intent = Refuse | AskDetail(detailType: string) | ListJobs | ListSessions | Help | Faq | NotUnderstood

  const NotFound := "Sorry, I couldn't find that job."
  const ChoiceHeader := "I found multiple jobs that match. Please specify by entering the number:\n"
  const InvalidSelection := "Invalid selection. Please try again."
  const BiasRefusal := "I detected a potentially biased query. Let\U{2019}s keep our conversation positive and inclusive."
  const ListingHeader := "Here are some job listings that match your query:\n"
  const NoListings := "Sorry, no job listings match your query right now."
  const SessionsHeader := "Upcoming sessions:\n"
  const NoSessions := "Sorry, session details are not available."
  const HelpText := "I can help with job listings, session details, mentorship opportunities, and career advice. What would you like to know?"
  const FaqText := "FAQs:\n- How do I apply for a job?\n- How do I register for a session?\n- Who can join the mentorship program?"
  const Fallback := "I'm sorry, I didn't understand that. Could you please clarify?"

  /** How many entries a listing shows: `matches[:3]`. */
  function Shown(n: nat): nat {
    if n < 3 then n else 3
  }

  /** The ranked search `get_job_detail` and the job branch run on the raw message. */
  function SearchFor(config: Config, query: string): seq<Job> {
    Search.Search(config.corpus, query, config.score, DefaultThreshold)
  }

  // ---------------------------------------------------------------------------
  // The texts built line by line

  /** Lines `1 .. k` of a listing, line `n` rendering entry `xs[n - 1]`. */
  function Lines<T>(xs: seq<T>, k: nat, line: (nat, T) -> string): string
    requires k <= |xs|
  {
    if k == 0 then "" else Lines(xs, k - 1, line) + line(k, xs[k - 1])
  }

  function TitleAtCompany(job: Job): string {
    Get(job, "title", "No Title") + " at " + Get(job, "company", "Unknown Company")
  }

  /** Line `n` of the numbered choice list. */
  function NumberedChoice(n: nat, job: Job): string {
    Decimal(n) + ". " + TitleAtCompany(job) + "\n"
  }

  /** A line of the job listing. */
  function ListingEntry(n: nat, job: Job): string {
    "- " + TitleAtCompany(job) + "\n"
  }

  /** A line of the session listing. */
  function SessionEntry(n: nat, detail: (string, string)): string {
    "- " + detail.0 + ": " + detail.1 + "\n"
  }

  /** The answer of the job branch for a ranked result. */
  function JobListing(matches: seq<Job>): string {
    if |matches| == 0 then NoListings
    else ListingHeader + Lines(matches, Shown(|matches|), ListingEntry)
  }

  /** The answer of the session branch. */
  function SessionListing(details: seq<(string, string)>): string {
    if |details| == 0 then NoSessions
    else SessionsHeader + Lines(details, |details|, SessionEntry)
  }

  /** One more line of a listing behind a fixed header. */
  lemma LinesStep<T>(header: string, xs: seq<T>, k: nat, line: (nat, T) -> string)
    requires k < |xs|
    ensures header + Lines(xs, k + 1, line) == header + Lines(xs, k, line) + line(k + 1, xs[k])
  {
    assert Lines(xs, k + 1, line) == Lines(xs, k, line) + line(k + 1, xs[k]);
  }

  /** Every rendered line is part of the text. */
  lemma {:induction false} LinesShow<T>(xs: seq<T>, n: nat, k: nat, line: (nat, T) -> string)
    requires 1 <= k <= n <= |xs|
    ensures Contains(Lines(xs, n, line), line(k, xs[k - 1]))
  {
    var l := line(k, xs[k - 1]);
    if n == k {
      assert Contains(l, l);
      ContainsExtended(l, l, Lines(xs, k - 1, line), "");
      assert Lines(xs, k - 1, line) + l + "" == Lines(xs, n, line);
    } else {
      LinesShow(xs, n - 1, k, line);
      ContainsExtended(Lines(xs, n - 1, line), l, "", line(n, xs[n - 1]));
      assert "" + Lines(xs, n - 1, line) + line(n, xs[n - 1]) == Lines(xs, n, line);
    }
  }

  /** The first `k` lines read only the first `k` entries. */
  lemma {:induction false} LinesPrefix<T>(xs: seq<T>, ys: seq<T>, k: nat, line: (nat, T) -> string)
    requires k <= |xs| && k <= |ys| && xs[..k] == ys[..k]
    ensures Lines(xs, k, line) == Lines(ys, k, line)
  {
    if k > 0 {
      assert xs[..k - 1] == xs[..k][..k - 1] && ys[..k - 1] == ys[..k][..k - 1];
      assert xs[k - 1] == xs[..k][k - 1] && ys[k - 1] == ys[..k][k - 1];
      LinesPrefix(xs, ys, k - 1, line);
    }
  }

  /** The job listing is the header and then one line per result, for the first three
      results in their ranked order. */
  lemma JobListingInOrder(matches: seq<Job>)
    ensures |matches| == 1 ==> JobListing(matches) == ListingHeader + ListingEntry(1, matches[0])
    ensures |matches| == 2 ==>
      JobListing(matches) == ListingHeader + ListingEntry(1, matches[0]) + ListingEntry(2, matches[1])
    ensures |matches| >= 3 ==>
      JobListing(matches) == ListingHeader + ListingEntry(1, matches[0]) + ListingEntry(2, matches[1])
                                           + ListingEntry(3, matches[2])
  {
    HeaderFirstThree(ListingHeader, matches, ListingEntry);
  }

  /** The first three lines of a listing, one after the other. */
  lemma LinesFirstThree<T>(xs: seq<T>, line: (nat, T) -> string)
    ensures |xs| >= 1 ==> Lines(xs, 1, line) == line(1, xs[0])
    ensures |xs| >= 2 ==> Lines(xs, 2, line) == line(1, xs[0]) + line(2, xs[1])
    ensures |xs| >= 3 ==> Lines(xs, 3, line) == line(1, xs[0]) + line(2, xs[1]) + line(3, xs[2])
  {
    if |xs| >= 1 {
      assert Lines(xs, 1, line) == "" + line(1, xs[0]);
    }
  }

  /** The same, after a header. */
  lemma HeaderFirstThree<T>(header: string, xs: seq<T>, line: (nat, T) -> string)
    ensures |xs| >= 1 ==> header + Lines(xs, 1, line) == header + line(1, xs[0])
    ensures |xs| >= 2 ==> header + Lines(xs, 2, line) == header + line(1, xs[0]) + line(2, xs[1])
    ensures |xs| >= 3 ==>
      header + Lines(xs, 3, line) == header + line(1, xs[0]) + line(2, xs[1]) + line(3, xs[2])
  {
    LinesFirstThree(xs, line);
    if |xs| >= 2 {
      Regroup(header, line(1, xs[0]), line(2, xs[1]), "");
      if |xs| >= 3 {
        Regroup(header, line(1, xs[0]), line(2, xs[1]), line(3, xs[2]));
      }
    }
  }

  lemma Regroup(header: string, a: string, b: string, c: string)
    ensures header + (a + b + c) == header + a + b + c
    ensures header + (a + b) == header + a + b
  {
  }

  /** One of the first three results is listed. */
  lemma ListingShows(matches: seq<Job>, k: nat)
    requires k < Shown(|matches|)
    ensures Contains(JobListing(matches), ListingEntry(k + 1, matches[k]))
  {
    var n := Shown(|matches|);
    LinesShow(matches, n, k + 1, ListingEntry);
    ContainsExtended(Lines(matches, n, ListingEntry), ListingEntry(k + 1, matches[k]), ListingHeader, "");
    assert ListingHeader + Lines(matches, n, ListingEntry) + "" == JobListing(matches);
  }

  /** The job listing shows each of the first three results, and nothing past the third
      result affects it. */
  lemma JobListingTopThree(matches: seq<Job>)
    ensures forall k :: 0 <= k < Shown(|matches|) ==>
      Contains(JobListing(matches), ListingEntry(k + 1, matches[k]))
    ensures JobListing(matches) == JobListing(matches[..Shown(|matches|)])
  {
    var n := Shown(|matches|);
    var top := matches[..n];
    forall k | 0 <= k < n ensures Contains(JobListing(matches), ListingEntry(k + 1, matches[k])) {
      ListingShows(matches, k);
    }
    assert top[..n] == matches[..n];
    LinesPrefix(matches, top, n, ListingEntry);
  }

  /** Every session detail is listed. */
  lemma SessionListingShowsAll(details: seq<(string, string)>)
    ensures |details| == 0 <==> SessionListing(details) == NoSessions
    ensures forall k :: 0 <= k < |details| ==>
      Contains(SessionListing(details), SessionEntry(k + 1, details[k]))
  {
    assert NoSessions[0] == 'S' && SessionsHeader[0] == 'U';
    if |details| > 0 {
      assert SessionListing(details)[0] == 'U';
    }
    forall k | 0 <= k < |details| ensures Contains(SessionListing(details), SessionEntry(k + 1, details[k])) {
      LinesShow(details, |details|, k + 1, SessionEntry);
      ContainsExtended(Lines(details, |details|, SessionEntry), SessionEntry(k + 1, details[k]), SessionsHeader, "");
      assert SessionsHeader + Lines(details, |details|, SessionEntry) + "" == SessionListing(details);
    }
  }

  /** The loop that writes a header and then the first `n` entries, one line each. */
  method Render<T>(header: string, xs: seq<T>, n: nat, line: (nat, T) -> string) returns (text: string)
    requires n <= |xs|
    ensures text == header + Lines(xs, n, line)
  {
    text := header;
    for i := 0 to n
      invariant text == header + Lines(xs, i, line)
    {
      LinesStep(header, xs, i, line);
      text := text + line(i + 1, xs[i]);
    }
  }

  // ---------------------------------------------------------------------------
  // The keyword dispatch

  /** The dispatch after the number check: the moderation gate first, then the detail
      keywords, then job/career, session/event, help and faq, each tested on the
      lower-cased message. The `any(...)` guard around the detail keywords holds
      exactly when one of the branches under it does, so it adds no case. */
  function Route(message: string): (r: Intent)
    ensures r == Refuse <==> DetectBias(message)
    ensures r.AskDetail? ==> r.detailType in DetailTypes
  {
    if DetectBias(message) then Refuse
    else
      var m := Lower(message);
      if Contains(m, "link") then AskDetail("link")
      else if Contains(m, "salary") then AskDetail("salary")
      else if Contains(m, "skill") then AskDetail("skills")
      else if Contains(m, "experience") then AskDetail("experience")
      else if Contains(m, "contract time") then AskDetail("contract time")
      else if Contains(m, "job") || Contains(m, "career") then ListJobs
      else if Contains(m, "session") || Contains(m, "event") then ListSessions
      else if Contains(m, "help") then Help
      else if Contains(m, "faq") then Faq
      else NotUnderstood
  }

  /** The same dispatch as a table: keyword groups in priority order. */
  const Rules: seq<(seq<string>, Intent)> := [
    (["link"], AskDetail("link")),
    (["salary"], AskDetail("salary")),
    (["skill"], AskDetail("skills")),
    (["experience"], AskDetail("experience")),
    (["contract time"], AskDetail("contract time")),
    (["job", "career"], ListJobs),
    (["session", "event"], ListSessions),
    (["help"], Help),
    (["faq"], Faq)
  ]

  /** The intent of the first rule from `k` on that has a keyword in `m`. */
  function FirstRule(m: string, k: nat): Intent
    decreases |Rules| - k
  {
    if k >= |Rules| then NotUnderstood
    else if AnyOccurs(m, Rules[k].0) then Rules[k].1
    else FirstRule(m, k + 1)
  }

  lemma AnyOccursOne(m: string, a: string)
    ensures AnyOccurs(m, [a]) == Contains(m, a)
  {
    assert [a][0] == a;
  }

  lemma AnyOccursTwo(m: string, a: string, b: string)
    ensures AnyOccurs(m, [a, b]) == (Contains(m, a) || Contains(m, b))
  {
    assert [a, b][0] == a && [a, b][1] == b;
  }

  /** First match wins: a message the gate lets through goes to the first rule of the
      table with a keyword in it, and is not understood when no rule has one. */
  lemma RouteByRules(message: string)
    ensures Route(message) == if DetectBias(message) then Refuse else FirstRule(Lower(message), 0)
  {
    var m := Lower(message);
    AnyOccursOne(m, "link");
    AnyOccursOne(m, "salary");
    AnyOccursOne(m, "skill");
    AnyOccursOne(m, "experience");
    AnyOccursOne(m, "contract time");
    FirstRuleFromJobs(m);
    assert FirstRule(m, 4) == if Contains(m, "contract time") then AskDetail("contract time") else FirstRule(m, 5);
    assert FirstRule(m, 3) == if Contains(m, "experience") then AskDetail("experience") else FirstRule(m, 4);
    assert FirstRule(m, 2) == if Contains(m, "skill") then AskDetail("skills") else FirstRule(m, 3);
    assert FirstRule(m, 1) == if Contains(m, "salary") then AskDetail("salary") else FirstRule(m, 2);
    assert FirstRule(m, 0) == if Contains(m, "link") then AskDetail("link") else FirstRule(m, 1);
  }

  /** The rules after the detail keywords. */
  lemma FirstRuleFromJobs(m: string)
    ensures FirstRule(m, 5)
         == if Contains(m, "job") || Contains(m, "career") then ListJobs
            else if Contains(m, "session") || Contains(m, "event") then ListSessions
            else if Contains(m, "help") then Help
            else if Contains(m, "faq") then Faq
            else NotUnderstood
  {
    AnyOccursTwo(m, "job", "career");
    AnyOccursTwo(m, "session", "event");
    AnyOccursOne(m, "help");
    AnyOccursOne(m, "faq");
    assert FirstRule(m, 9) == NotUnderstood;
    assert FirstRule(m, 8) == if Contains(m, "faq") then Faq else NotUnderstood;
    assert FirstRule(m, 7) == if Contains(m, "help") then Help else FirstRule(m, 8);
    assert FirstRule(m, 6) == if Contains(m, "session") || Contains(m, "event") then ListSessions else FirstRule(m, 7);
    assert FirstRule(m, 5) == if Contains(m, "job") || Contains(m, "career") then ListJobs else FirstRule(m, 6);
  }

  /** The dispatch does not see case. */
  lemma RouteIgnoresCase(message: string)
    ensures Route(Upper(message)) == Route(message)
  {
    LowerOfUpper(message);
    DetectBiasIgnoresCase(message);
  }

  /** A message made of digits and whitespace holds no letter once lower-cased. */
  lemma DigitReplyHasNoLetters(message: string)
    requires IsDigits(Strip(message))
    ensures NoLowerLetters(Lower(message))
  {
    forall k | 0 <= k < |message| ensures !('a' <= Lower(message)[k] <= 'z') {
      var c := message[k];
      StripRemovesOnlySpace(message, c);
      assert IsDigit(c) || IsSpace(c) by {
        if c in Strip(message) {
          var j :| 0 <= j < |Strip(message)| && Strip(message)[j] == c;
        }
      }
      assert Lower(message)[k] == LowerChar(c);
    }
  }

  /** A bare number matches no keyword: past the number check it is not understood. */
  lemma DigitsNotUnderstood(message: string)
    ensures IsDigits(Strip(message)) ==> Route(message) == NotUnderstood
  {
    if IsDigits(Strip(message)) {
      DigitReplyHasNoLetters(message);
      NoLettersNotBiased(message);
      NoKeywords(Lower(message));
    }
  }

  /** Every keyword of the dispatch starts with a letter, so none occurs in text without
      letters. */
  lemma NoKeywords(m: string)
    requires NoLowerLetters(m)
    ensures !Contains(m, "link") && !Contains(m, "salary") && !Contains(m, "skill")
    ensures !Contains(m, "experience") && !Contains(m, "contract time")
    ensures !Contains(m, "job") && !Contains(m, "career") && !Contains(m, "session")
    ensures !Contains(m, "event") && !Contains(m, "help") && !Contains(m, "faq")
  {
    NoLetterWord(m, "link");
    NoLetterWord(m, "salary");
    NoLetterWord(m, "skill");
    NoLetterWord(m, "experience");
    NoLetterWord(m, "contract time");
    NoLetterWord(m, "job");
    NoLetterWord(m, "career");
    NoLetterWord(m, "session");
    NoLetterWord(m, "event");
    NoLetterWord(m, "help");
    NoLetterWord(m, "faq");
  }

  // ---------------------------------------------------------------------------
  // One turn, as a value

  /** What `get_job_detail` does with the ranked matches: no match, one match answered
      directly, or several matches parked under the session (all of them, though only
      the first three are listed). */
  function Answer(store: Store, sessionId: string, matches: seq<Job>, detailType: string): Reply {
    if |matches| == 0 then Reply(NotFound, store)
    else if |matches| == 1 then Reply(Detail(matches[0], detailType), store)
    else Reply(ChoiceHeader + Lines(matches, Shown(|matches|), NumberedChoice),
               store[sessionId := Pending(matches, detailType)])
  }

  /** `get_job_detail(query, detail_type, session_id)`. */
  function JobDetail(config: Config, store: Store, sessionId: string, query: string, detailType: string): Reply {
    Answer(store, sessionId, SearchFor(config, query), detailType)
  }

  /** The answer to number `n` for a waiting request: the entry is removed whether or
      not the number is in range. */
  function Select(store: Store, sessionId: string, n: nat): Reply
    requires sessionId in store
  {
    var pending := store[sessionId];
    var index := n - 1;
    var response := if index < 0 || index >= |pending.matches| then InvalidSelection
                    else Detail(pending.matches[index], pending.detailType);
    Reply(response, store - {sessionId})
  }

  /** The branch of `process_message` a routed message takes. */
  function Dispatch(config: Config, store: Store, sessionId: string, message: string, intent: Intent): Reply {
    match intent
    case Refuse => Reply(BiasRefusal, store)
    case AskDetail(detailType) => JobDetail(config, store, sessionId, message, detailType)
    case ListJobs => Reply(JobListing(SearchFor(config, message)), store)
    case ListSessions => Reply(SessionListing(config.sessionDetails), store)
    case Help => Reply(HelpText, store)
    case Faq => Reply(FaqText, store)
    case NotUnderstood => Reply(Fallback, store)
  }

  /** `process_message(message, history, session_id)`: a number answers a waiting
      request; anything else is routed. */
  function Respond(config: Config, store: Store, sessionId: string, message: string): Reply {
    var trimmed := Strip(message);
    if IsDigits(trimmed) && sessionId in store then Select(store, sessionId, DigitsValue(trimmed))
    else Dispatch(config, store, sessionId, message, Route(message))
  }

  // ---------------------------------------------------------------------------
  // What a turn does to the store

  /** Every parked request holds at least two postings and a detail type the extractor
      knows. */
  predicate StoreValid(store: Store) {
    forall sid :: sid in store ==> |store[sid].matches| >= 2 && store[sid].detailType in DetailTypes
  }

  /** How `get_job_detail` changes the store: only when it parks several matches. */
  lemma AnswerStore(store: Store, sessionId: string, matches: seq<Job>, detailType: string)
    ensures Answer(store, sessionId, matches, detailType).store
         == if |matches| >= 2 then store[sessionId := Pending(matches, detailType)] else store
  {
  }

  /** The store after one turn: a number with a waiting request removes the request,
      a detail request with several matches parks them, and nothing else changes it. */
  lemma RespondStore(config: Config, store: Store, sessionId: string, message: string)
    ensures var intent, matches := Route(message), SearchFor(config, message);
      Respond(config, store, sessionId, message).store
        == if IsDigits(Strip(message)) && sessionId in store then store - {sessionId}
           else if intent.AskDetail? && |matches| >= 2
           then store[sessionId := Pending(matches, intent.detailType)]
           else store
  {
    var intent, matches := Route(message), SearchFor(config, message);
    if !(IsDigits(Strip(message)) && sessionId in store) {
      assert Respond(config, store, sessionId, message) == Dispatch(config, store, sessionId, message, intent);
      if intent.AskDetail? {
        AnswerStore(store, sessionId, matches, intent.detailType);
      }
    }
  }

  /** Removing or parking a well-formed request keeps the store well formed. */
  lemma StoreValidKept(store: Store, sessionId: string, pending: Pending)
    requires StoreValid(store)
    ensures StoreValid(store - {sessionId})
    ensures |pending.matches| >= 2 && pending.detailType in DetailTypes ==> StoreValid(store[sessionId := pending])
  {
  }

  /** A turn keeps every parked request well formed. */
  lemma RespondKeepsStoreValid(config: Config, store: Store, sessionId: string, message: string)
    requires StoreValid(store)
    ensures StoreValid(Respond(config, store, sessionId, message).store)
  {
    RespondStore(config, store, sessionId, message);
    var intent := Route(message);
    var detailType := if intent.AskDetail? then intent.detailType else "";
    StoreValidKept(store, sessionId, Pending(SearchFor(config, message), detailType));
  }

  /** Other sessions' requests are never touched. */
  lemma OtherSessionsUntouched(config: Config, store: Store, sessionId: string, message: string, other: string)
    requires other != sessionId
    ensures var after := Respond(config, store, sessionId, message).store;
      (other in after <==> other in store) && (other in store ==> after[other] == store[other])
  {
    RespondStore(config, store, sessionId, message);
  }

  /** The life of a parked request: a number removes it, in range or not; nothing else
      removes it; a message that is not a number leaves the store alone unless it is a
      detail request with several matches, which parks (or overwrites) its own entry. */
  lemma PendingLifetime(config: Config, store: Store, sessionId: string, message: string)
    ensures var after := Respond(config, store, sessionId, message).store;
      && (sessionId in store && IsDigits(Strip(message)) ==> after == store - {sessionId})
      && (sessionId in store && sessionId !in after ==> IsDigits(Strip(message)))
      && (!IsDigits(Strip(message)) ==>
            after == store ||
            (Route(message).AskDetail? && |SearchFor(config, message)| >= 2 &&
             after == store[sessionId := Pending(SearchFor(config, message), Route(message).detailType)]))
  {
    RespondStore(config, store, sessionId, message);
  }

  /** A biased message is refused and leaves the store as it was, whatever is parked. */
  lemma BiasedLeavesStore(config: Config, store: Store, sessionId: string, message: string)
    requires DetectBias(message)
    ensures Respond(config, store, sessionId, message) == Reply(BiasRefusal, store)
  {
    DigitsNotUnderstood(message);
  }

  /** A bare number with nothing parked falls through every rule. */
  lemma BareNumberNotUnderstood(config: Config, store: Store, sessionId: string, message: string)
    requires sessionId !in store && IsDigits(Strip(message))
    ensures Respond(config, store, sessionId, message) == Reply(Fallback, store)
  {
    DigitsNotUnderstood(message);
  }

  /** Typing the number `k` (surrounding whitespace allowed) picks the `k`-th stored
      match, for every stored match and not only the listed ones. */
  lemma SelectionRoundTrip(config: Config, store: Store, sessionId: string, message: string, k: nat)
    requires sessionId in store && 1 <= k <= |store[sessionId].matches|
    requires Strip(message) == Decimal(k)
    ensures Respond(config, store, sessionId, message)
         == Reply(Detail(store[sessionId].matches[k - 1], store[sessionId].detailType), store - {sessionId})
  {
  }

  /** A number outside the stored range is refused, and the request is gone anyway. */
  lemma SelectionOutOfRange(config: Config, store: Store, sessionId: string, message: string)
    requires sessionId in store && IsDigits(Strip(message))
    requires DigitsValue(Strip(message)) == 0 || DigitsValue(Strip(message)) > |store[sessionId].matches|
    ensures Respond(config, store, sessionId, message) == Reply(InvalidSelection, store - {sessionId})
  {
  }

  /** "Please try again" cannot be followed: the out-of-range number already removed the
      request, so the next number, even a valid one, is not understood. */
  lemma RetryAfterInvalidSelection(config: Config, store: Store, sessionId: string, first: string, second: string)
    requires sessionId in store && IsDigits(Strip(first))
    requires DigitsValue(Strip(first)) == 0 || DigitsValue(Strip(first)) > |store[sessionId].matches|
    requires IsDigits(Strip(second))
    ensures var after := Respond(config, store, sessionId, first);
      after.response == InvalidSelection && Respond(config, after.store, sessionId, second) == Reply(Fallback, after.store)
  {
    SelectionOutOfRange(config, store, sessionId, first);
    BareNumberNotUnderstood(config, store - {sessionId}, sessionId, second);
  }

  /** `get_job_detail` case by case: no match leaves the store; one match is answered
      from the posting and leaves the store; several are all parked and the first three
      are listed with their numbers. */
  lemma JobDetailOutcome(config: Config, store: Store, sessionId: string, query: string, detailType: string)
    ensures var matches, r := SearchFor(config, query), JobDetail(config, store, sessionId, query, detailType);
      && (|matches| == 0 ==> r == Reply(NotFound, store))
      && (|matches| == 1 ==> r == Reply(Detail(matches[0], detailType), store))
      && (|matches| >= 2 ==> r.store == store[sessionId := Pending(matches, detailType)])
      && (|matches| >= 2 ==> forall k :: 0 <= k < Shown(|matches|) ==>
            Contains(r.response, NumberedChoice(k + 1, matches[k])))
      && (|matches| == 2 ==>
            r.response == ChoiceHeader + NumberedChoice(1, matches[0]) + NumberedChoice(2, matches[1]))
      && (|matches| >= 3 ==>
            r.response == ChoiceHeader + NumberedChoice(1, matches[0]) + NumberedChoice(2, matches[1])
                                       + NumberedChoice(3, matches[2]))
      && (|matches| >= 3 ==> r.response == Answer(store, sessionId, matches[..3], detailType).response)
  {
    var matches := SearchFor(config, query);
    ChoicesInOrder(store, sessionId, matches, detailType);
    if |matches| >= 2 {
      var n := Shown(|matches|);
      var lines := Lines(matches, n, NumberedChoice);
      forall k | 0 <= k < n ensures Contains(ChoiceHeader + lines, NumberedChoice(k + 1, matches[k])) {
        LinesShow(matches, n, k + 1, NumberedChoice);
        ContainsExtended(lines, NumberedChoice(k + 1, matches[k]), ChoiceHeader, "");
        assert ChoiceHeader + lines + "" == ChoiceHeader + lines;
      }
    }
  }

  /** With several matches the reply numbers the first three of them, in ranked order,
      and no later match changes it. */
  lemma ChoicesInOrder(store: Store, sessionId: string, matches: seq<Job>, detailType: string)
    ensures var r := Answer(store, sessionId, matches, detailType);
      && (|matches| == 2 ==>
            r.response == ChoiceHeader + NumberedChoice(1, matches[0]) + NumberedChoice(2, matches[1]))
      && (|matches| >= 3 ==>
            r.response == ChoiceHeader + NumberedChoice(1, matches[0]) + NumberedChoice(2, matches[1])
                                       + NumberedChoice(3, matches[2]))
      && (|matches| >= 3 ==> r.response == Answer(store, sessionId, matches[..3], detailType).response)
  {
    HeaderFirstThree(ChoiceHeader, matches, NumberedChoice);
    if |matches| >= 3 {
      var top := matches[..3];
      assert top[..3] == matches[..3];
      LinesPrefix(matches, top, 3, NumberedChoice);
    }
  }

  /** Several matches are parked under the session and removing them restores the
      other sessions' requests. */
  lemma Parked(store: Store, sessionId: string, matches: seq<Job>, detailType: string)
    requires |matches| >= 2
    ensures var parked := Answer(store, sessionId, matches, detailType).store;
      && sessionId in parked && parked[sessionId] == Pending(matches, detailType)
      && parked - {sessionId} == store - {sessionId}
  {
    var parked := Answer(store, sessionId, matches, detailType).store;
    assert parked == store[sessionId := Pending(matches, detailType)];
    assert parked - {sessionId} == store - {sessionId};
  }

  /** The disambiguation round trip: after a detail request with several matches,
      answering with the number of any match, listed or not, gives that posting's
      detail and clears the session's entry. */
  lemma ListThenSelect(config: Config, store: Store, sessionId: string, query: string, detailType: string,
                       message: string, k: nat)
    requires 1 <= k <= |SearchFor(config, query)| && |SearchFor(config, query)| >= 2
    requires Strip(message) == Decimal(k)
    ensures var parked := JobDetail(config, store, sessionId, query, detailType).store;
      Respond(config, parked, sessionId, message)
        == Reply(Detail(SearchFor(config, query)[k - 1], detailType), store - {sessionId})
  {
    var matches := SearchFor(config, query);
    var parked := JobDetail(config, store, sessionId, query, detailType).store;
    Parked(store, sessionId, matches, detailType);
    SelectionRoundTrip(config, parked, sessionId, message, k);
  }

  // ---------------------------------------------------------------------------
  // The conversation log

  datatype Sender = User | Bot

  /** One history entry (the timestamp is not modelled). */
  datatype Turn = Turn(sender: Sender, message: string)

  function HistoryOf(histories: map<string, seq<Turn>>, sessionId: string): seq<Turn> {
    if sessionId in histories then histories[sessionId] else []
  }

  /** The log after one exchange: the user's message, then the bot's answer, appended to
      the session's history. */
  function Logged(histories: map<string, seq<Turn>>, sessionId: string, user: string, bot: string)
    : map<string, seq<Turn>>
  {
    histories[sessionId := HistoryOf(histories, sessionId) + [Turn(User, user), Turn(Bot, bot)]]
  }

  /** Logging keeps the session's earlier history as a prefix, adds the two turns in
      order, and leaves other sessions alone. */
  lemma LoggedExtends(histories: map<string, seq<Turn>>, sessionId: string, user: string, bot: string)
    ensures var after := Logged(histories, sessionId, user, bot);
      && HistoryOf(histories, sessionId) <= HistoryOf(after, sessionId)
      && |HistoryOf(after, sessionId)| == |HistoryOf(histories, sessionId)| + 2
      && HistoryOf(after, sessionId)[|HistoryOf(histories, sessionId)|] == Turn(User, user)
      && HistoryOf(after, sessionId)[|HistoryOf(histories, sessionId)| + 1] == Turn(Bot, bot)
      && forall other :: other != sessionId ==> HistoryOf(after, other) == HistoryOf(histories, other)
  {
  }

  /** Two exchanges in one session are logged in the order they happened. */
  lemma LoggedInOrder(histories: map<string, seq<Turn>>, sessionId: string, u1: string, b1: string, u2: string, b2: string)
    ensures HistoryOf(Logged(Logged(histories, sessionId, u1, b1), sessionId, u2, b2), sessionId)
         == HistoryOf(histories, sessionId) + [Turn(User, u1), Turn(Bot, b1), Turn(User, u2), Turn(Bot, b2)]
  {
    var h := HistoryOf(histories, sessionId);
    assert h + [Turn(User, u1), Turn(Bot, b1)] + [Turn(User, u2), Turn(Bot, b2)]
        == h + [Turn(User, u1), Turn(Bot, b1), Turn(User, u2), Turn(Bot, b2)];
  }

  /** `data.get(key, default)` on the request body. */
  function OrElse<T>(value: Option<T>, default: T): T {
    if value.Some? then value.value else default
  }

  // ---------------------------------------------------------------------------
  // The chatbot with its in-memory stores

  class Chatbot {
    const config: Config
    /** `ambiguous_store`. */
    var ambiguous: Store
    /** `session_store`: each session's conversation. */
    var histories: map<string, seq<Turn>>

    constructor (config: Config)
      ensures this.config == config && ambiguous == map[] && histories == map[]
    {
      this.config := config;
      ambiguous := map[];
      histories := map[];
    }

    /** `get_job_detail`. */
    method GetJobDetail(query: string, detailType: string, sessionId: string) returns (response: string)
      modifies this`ambiguous
      ensures Reply(response, ambiguous) == JobDetail(config, old(ambiguous), sessionId, query, detailType)
    {
      var matches := SearchJobs(config.corpus, query, config.score, DefaultThreshold);
      if |matches| == 0 {
        response := NotFound;
      } else if |matches| == 1 {
        response := Detail(matches[0], detailType);
      } else {
        ambiguous := ambiguous[sessionId := Pending(matches, detailType)];
        response := Render(ChoiceHeader, matches, Shown(|matches|), NumberedChoice);
      }
      assert Reply(response, ambiguous) == Answer(old(ambiguous), sessionId, matches, detailType);
    }

    /** `process_message`. */
    method ProcessMessage(message: string, sessionId: string) returns (response: string)
      modifies this`ambiguous
      ensures Reply(response, ambiguous) == Respond(config, old(ambiguous), sessionId, message)
    {
      ghost var store := ambiguous;
      var trimmed := Strip(message);
      if IsDigits(trimmed) && sessionId in ambiguous {
        var index := DigitsValue(trimmed) - 1;
        var data := ambiguous[sessionId];
        ambiguous := ambiguous - {sessionId};
        if index < 0 || index >= |data.matches| {
          response := InvalidSelection;
        } else {
          response := Detail(data.matches[index], data.detailType);
        }
        assert Reply(response, ambiguous) == Select(store, sessionId, DigitsValue(trimmed));
      } else {
        var intent := Route(message);
        match intent {
          case Refuse =>
            response := BiasRefusal;
          case AskDetail(detailType) =>
            response := GetJobDetail(message, detailType, sessionId);
          case ListJobs =>
            var matches := SearchJobs(config.corpus, message, config.score, DefaultThreshold);
            if |matches| > 0 {
              response := Render(ListingHeader, matches, Shown(|matches|), ListingEntry);
            } else {
              response := NoListings;
            }
          case ListSessions =>
            var details := config.sessionDetails;
            if |details| > 0 {
              response := Render(SessionsHeader, details, |details|, SessionEntry);
            } else {
              response := NoSessions;
            }
          case Help =>
            response := HelpText;
          case Faq =>
            response := FaqText;
          case NotUnderstood =>
            response := Fallback;
        }
        assert Reply(response, ambiguous) == Dispatch(config, store, sessionId, message, intent);
      }
    }

    /** Appends one exchange to the session's history, creating the history on the
        session's first message. */
    method Record(sessionId: string, user: string, bot: string)
      modifies this`histories
      ensures histories == Logged(old(histories), sessionId, user, bot)
    {
      var history := if sessionId in histories then histories[sessionId] else [];
      history := history + [Turn(User, user)];
      history := history + [Turn(Bot, bot)];
      assert history == HistoryOf(old(histories), sessionId) + [Turn(User, user), Turn(Bot, bot)];
      histories := histories[sessionId := history];
    }

    /** The `/chat` handler without the HTTP wrapper: the missing message defaults to a
        single space and the missing session id to "default"; the user's turn and the
        answer are appended to the session's history. */
    method Chat(message: Option<string>, sessionId: Option<string>)
      returns (response: string)
      modifies this
      ensures var m, sid := OrElse(message, " "), OrElse(sessionId, "default");
        && Reply(response, ambiguous) == Respond(config, old(ambiguous), sid, m)
        && histories == Logged(old(histories), sid, m, response)
    {
      var m := OrElse(message, " ");
      var sid := OrElse(sessionId, "default");
      response := ProcessMessage(m, sid);
      Record(sid, m, response);
    }
  }
}
