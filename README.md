# Asha chatbot core, modelled in Dafny

This project models the decision-making core of the Asha AI job-assistant chatbot (`app.py`). It covers:

- the moderation gate (`detect_bias`);
- the semantic job search (`search_jobs`): score every posting, sort by descending score stably, and keep those at or above the threshold 0.3;
- the attribute extractor (`get_detail_from_job`);
- the detail request that parks several matches in the ambiguous store (`get_job_detail`);
- the per-message dispatcher (`process_message`), including the numbered-reply disambiguation;
- the `/chat` handler's bookkeeping of per-session histories;
- the corpus side of the embedding index (`build_job_embeddings`): the text each posting is embedded from, and the cache-reuse decision.

Files:

- `Wrappers.dfy`: the `Option` type, for a value that may be missing (an absent request field, an unreadable cache file).
- `Text.dfy`: the Python string operations the decisions rest on. These are `lower()`, `upper()`, `t in s`, `strip()`, `isdigit()`, `int()` and `str()` of a natural number.
- `Jobs.dfy`: a posting as a column-to-text map, and `get_detail_from_job`.
- `Moderation.dfy`: `detect_bias`.
- `Embeddings.dfy`: the text built for each posting, and the cache decision of `build_job_embeddings`. The sentence encoder is a parameter.
- `Search.dfy`: `search_jobs`, first as a value and then as the in-place procedure the source runs.
  - The value `Search` ranks positions by descending score, then by corpus position, and keeps the positions at or above the threshold.
  - The method `SearchJobs` scores into an array, sorts it in place with a stable insertion sort, and filters it.
  - Its contract ties it to `Search`. `Search` is then proved sound, complete, ranked, a permutation of the corpus-order filter, and monotone in the threshold.
- `Dialogue.dfy`: one conversational turn.
  - `Respond` is one turn as a value: the number check, then `Route` (the priority-ordered keyword dispatch), then the branch taken.
  - `Chatbot` is the class holding `ambiguous_store` and `session_store` as fields. Its methods are proved to produce exactly what `Respond` and `Logged` describe.

Two places where the code may surprise a reader; the model follows the code:

- `get_job_detail` parks **all** matches under the session (`app.py:243`), not only the top three it lists. Any match can therefore be chosen by number (`ListThenSelect`).
- Every default text (`No link available`, `N/A`, `No Title`, ...) comes from `dict.get`. A column that is present but empty is printed empty rather than replaced (`DefaultOnlyWhenAbsent`).

## Model

| member | source | states |
|---|---|---|
| Text.Contains | app.py:202 | `t in s` holds exactly when `t` occurs in `s` at some position |
| Text.ContainsExtended | app.py:202 | an occurrence survives text added on either side |
| Text.NoLetterWord | app.py:270-305 | a word that starts with a letter does not occur in text without letters |
| Text.Lower | app.py:271 | `s.lower()`: the same length, each ASCII capital replaced by its small letter and every other character kept |
| Text.Upper | app.py:202 | `s.upper()`: the same length, each ASCII small letter replaced by its capital and every other character kept; the program never upper-cases, and the model uses it only to state that the gate ignores case |
| Text.LowerOfUpper | app.py:202 | lower-casing forgets an earlier upper-casing |
| Text.LowerOfLower | app.py:271 | lower-casing is idempotent |
| Text.LowerConcat | app.py:271 | lower-casing works piece by piece |
| Text.StripLeft | app.py:250 | `lstrip()` removes exactly the leading whitespace: a suffix, what was cut is whitespace, what remains starts with a non-space |
| Text.StripRight | app.py:250 | `rstrip()` removes exactly the trailing whitespace |
| Text.Strip | app.py:250 | `s.strip()`: `rstrip()` applied after `lstrip()`, so the leading and then the trailing whitespace is removed |
| Text.StripUnpadded | app.py:250 | a string without whitespace at either end is its own `strip()` |
| Text.StripRemovesOnlySpace | app.py:250 | every character that `strip()` removes is whitespace |
| Text.IsDigits | app.py:250 | `s.isdigit()`: the text is non-empty and every character is one of the ASCII digits `0`-`9` |
| Text.DigitsValue | app.py:251 | `int(s)` of a digit string: the digits read left to right in base 10, leading zeros allowed; `int(str(n)) == n` is proved (`Decimal`) |
| Text.Decimal | app.py:246 | `str(n)` is a digit string without leading zeros (only `0` itself starts with `0`) that `int()` reads back as `n` |
| Text.StripDecimal | app.py:250-251 | a rendered number passes `strip()` unchanged |
| Jobs.Get | app.py:220-231 | `job.get(key, default)`: the posting's text when the column is present, even if empty, and the default only when it is absent |
| Jobs.Detail | app.py:218-233 | the answer is the "didn't understand" sentence exactly when the detail type is not one of the five known ones |
| Jobs.DetailReadsOnlyItsKeys | app.py:218-233 | each detail reads only its own columns; "experience" reads none |
| Jobs.DefaultOnlyWhenAbsent | app.py:220-231 | a present column is printed as it is: the sentence equals the absent-column sentence exactly when the text equals the default, and never when the text is empty |
| Jobs.SalarySlots | app.py:222-225 | each of the three salary values can be told from the sentence |
| Jobs.SingleSlotReadsBack | app.py:218-233 | cutting the fixed prefix and final period off a one-column sentence gives back `job.get(key, default)` |
| Moderation.AnyOccurs | app.py:201-204 | the loop over the denylist is true exactly when one of its phrases occurs |
| Moderation.DetectBias | app.py:199-204 | a message is flagged exactly when a denylisted phrase occurs in its lower-cased text |
| Moderation.DetectBiasIgnoresCase | app.py:202 | the gate gives the same verdict on a message, its upper-cased form and its lower-cased form |
| Moderation.NotBiasedWithoutLetters | app.py:199-204 | a message missing one character of every phrase passes |
| Moderation.NoLettersNotBiased | app.py:199-204 | a message without letters passes |
| Moderation.BiasedExample | app.py:201 | "only man needed" is flagged in any case |
| Moderation.InnocentExample | app.py:201 | "great opportunity" passes |
| Embeddings.CorpusText | app.py:172-175 | the text a posting is embedded from: the non-empty values of title, company, description and category, in this order, each followed by a space |
| Embeddings.BuildText | app.py:172-175 | the text-building loop yields the four columns' non-empty values in order, each followed by a space |
| Embeddings.CorpusTextAllPresent | app.py:172-175 | with all four columns filled, the text is title, company, description, category, each followed by a space |
| Embeddings.TextOfFour | app.py:173-175 | over four columns the text is their pieces in order |
| Embeddings.CorpusTextAgrees | app.py:173-175 | postings that agree on the non-empty values of the four columns embed the same text |
| Embeddings.EmptyLikeAbsent | app.py:174 | an empty column is skipped exactly like an absent one |
| Embeddings.CorpusTextEmpty | app.py:172-175 | the text is empty exactly when none of the four columns is filled |
| Embeddings.BuildEmbeddings | app.py:153-185 | one embedding per posting in corpus order; a cache of the right length is reused as it is and not rewritten; otherwise every posting is encoded from its text and the new list is written back |
| Search.Positions | app.py:210-212 | the positions of an `n`-posting corpus are exactly `0 .. n-1` |
| Search.Filter | app.py:214 | the comprehension keeps only positions that reach the threshold |
| Search.Rank | app.py:213 | the ranking of all corpus positions: each position is inserted before the first one it outscores, so ties keep corpus order |
| Search.RankRanked | app.py:213 | the ranking holds every position once and orders each pair by descending score, equal scores in corpus order |
| Search.RankedUnique | app.py:213 | only one sequence of all positions is ranked this way, so the stable descending sort has a single possible outcome |
| Search.InsertRanked | app.py:213 | inserting one more position keeps the sequence ranked and adds exactly that position |
| Search.FilterElems | app.py:214 | filtering keeps exactly the members reaching the threshold |
| Search.FilterRanked | app.py:214 | filtering keeps the ranking |
| Search.FilterPrefix | app.py:214 | over a ranked sequence, a higher threshold keeps a prefix of what a lower one keeps |
| Search.Search | app.py:206-216 | `search_jobs` as a value: the postings at the ranked positions whose score reaches the threshold, best first |
| Search.SearchIndicesExact | app.py:206-216 | the returned positions are exactly those scoring at least the threshold, each once, ranked |
| Search.SearchResult | app.py:206-216 | every returned posting reaches the threshold, every posting that reaches it is returned, scores never increase along the result, and it holds one posting per returned position |
| Search.SearchMonotone | app.py:206-214 | raising the threshold shortens the result to one of its prefixes |
| Search.SearchPermutation | app.py:213-214 | the result is a permutation of the postings reaching the threshold in corpus order |
| Search.InCorpusOrderByIndex | app.py:214 | the corpus-order comprehension is the filter over positions `0 .. n-1` |
| Search.JobsAtPermutation | app.py:213 | permuting positions permutes the postings |
| Search.ShiftLeft | app.py:213 | one insertion step moves the new entry past exactly the entries scoring strictly less |
| Search.SiftLeft | app.py:213 | one insertion step extends the sorted prefix by one position |
| Search.SortByScore | app.py:213 | the in-place stable sort leaves the array holding each posting once, ranked |
| Search.KeepAtLeast | app.py:214 | the filtering comprehension keeps the postings reaching the threshold, in sorted order |
| Search.SearchJobs | app.py:206-216 | the procedure returns exactly `Search` of the corpus, the query and the threshold |
| Dialogue.Route | app.py:265-308 | a message is refused exactly when the gate flags it, and a detail request always asks for a known detail type |
| Dialogue.RouteByRules | app.py:270-308 | the dispatch equals the first-match-wins reading of its keyword table |
| Dialogue.RouteIgnoresCase | app.py:265-305 | the dispatch does not depend on letter case |
| Dialogue.DigitsNotUnderstood | app.py:250-308 | a bare number matches no phrase and no keyword, so it is not understood past the number check |
| Dialogue.JobListing | app.py:284-292 | the job branch's answer: the apology when nothing matches, otherwise the header and one line per result for at most the first three |
| Dialogue.SessionListing | app.py:293-300 | the session branch's answer: the apology when there are no session details, otherwise the header and one line per detail |
| Dialogue.Render | app.py:244-246 | the listing loops write the header and then one line per shown entry |
| Dialogue.LinesShow | app.py:245-246 | every rendered line is part of the text |
| Dialogue.LinesPrefix | app.py:288-289 | a listing of the first `k` entries reads only those entries |
| Dialogue.JobListingInOrder | app.py:286-289 | with one, two or at least three results the listing is exactly the header followed by the first result, then the second, then the third, in ranked order |
| Dialogue.JobListingTopThree | app.py:286-289 | the job listing shows each of the first three results and ignores every later result |
| Dialogue.SessionListingShowsAll | app.py:294-299 | with no session details the apology is sent; otherwise every detail is listed |
| Dialogue.Answer | app.py:237-247 | `get_job_detail` after its search: no match gives the not-found apology, one match gives that posting's detail, several park all matches under the session and list the first three with their numbers |
| Dialogue.JobDetail | app.py:235-247 | `get_job_detail`: `Answer` applied to the result of `search_jobs` on the query |
| Dialogue.Select | app.py:250-258 | a number `n` for a waiting request: the `n`-th match's detail when `1 <= n <= matches`, otherwise the invalid-selection text; the request is removed either way |
| Dialogue.Dispatch | app.py:268-308 | the branch a routed message takes: the refusal, a detail request, the job listing, the session listing, the help text, the FAQ text or the fallback; only the detail request can change the store |
| Dialogue.Respond | app.py:249-308 | `process_message`: a stripped all-digit message with a request waiting goes to `Select`; every other message goes to `Dispatch` on its route |
| Dialogue.JobDetailOutcome | app.py:235-247 | no match leaves the store; one match is answered from the posting; several are all parked under the session, and the reply is the header followed by the numbered lines of the first two or three matches, in ranked order, unaffected by any later match |
| Dialogue.AnswerStore | app.py:236-243 | `get_job_detail` changes the store only by parking two or more matches |
| Dialogue.RespondStore | app.py:249-308 | a turn removes the waiting request on a number, parks matches on a multi-match detail request, and otherwise leaves the store alone |
| Dialogue.StoreValidKept | app.py:243-252 | removing or parking well-formed requests keeps the store well formed |
| Dialogue.RespondKeepsStoreValid | app.py:243-252 | every parked request keeps at least two matches and a known detail type |
| Dialogue.OtherSessionsUntouched | app.py:243-252 | a turn never touches another session's request |
| Dialogue.PendingLifetime | app.py:243-252 | a number always removes the waiting request, in range or not; only a number removes it; any other message leaves the store or parks the session's own request |
| Dialogue.BiasedLeavesStore | app.py:250-266 | a biased message is refused and the store is left as it was, even with a request waiting |
| Dialogue.BareNumberNotUnderstood | app.py:250-308 | a number with nothing waiting falls through to the fallback text |
| Dialogue.SelectionRoundTrip | app.py:250-257 | replying with the number `k` (whitespace allowed) gives the detail of the `k`-th parked match and clears the request |
| Dialogue.SelectionOutOfRange | app.py:251-255 | a number outside `1 .. matches` is refused, and the request is removed anyway |
| Dialogue.RetryAfterInvalidSelection | app.py:250-308 | after an invalid selection a second number, even a valid one, is not understood, although the reply invites a retry |
| Dialogue.ChoicesInOrder | app.py:243-247 | with two matches the reply is the header and choices 1 and 2; with three or more it is the header and choices 1, 2 and 3 in ranked order, the same as for the first three matches alone |
| Dialogue.Parked | app.py:243 | parked matches are stored under the session, and removing them restores every other session's entries |
| Dialogue.ListThenSelect | app.py:235-257 | after a multi-match detail request, replying with the number of any match, listed or not, gives that posting's detail and clears the request |
| Dialogue.Logged | app.py:471-476 | the `/chat` bookkeeping: the session's history, or an empty one, extended by the user's turn and then the bot's |
| Dialogue.LoggedExtends | app.py:471-476 | logging keeps the earlier history as a prefix, adds the user's turn and then the bot's, and leaves other sessions alone |
| Dialogue.LoggedInOrder | app.py:471-476 | two exchanges are logged in the order they happened |
| Dialogue.Chatbot.GetJobDetail | app.py:235-247 | the method's answer and new ambiguous store are those of `JobDetail` |
| Dialogue.Chatbot.ProcessMessage | app.py:249-308 | the method's answer and new ambiguous store are those of `Respond` |
| Dialogue.Chatbot.Record | app.py:471-476 | the session's history becomes `Logged` of the old histories |
| Dialogue.Chatbot.Chat | app.py:463-476 | a missing message becomes one space and a missing session id becomes "default"; the turn is answered by `Respond`, and the exchange is logged |

## Left out

- Similarity scoring: the sentence encoder and `util.cos_sim` are the parameter `score` of `Search`. The query encoding, tensors and floating point are not modelled; scores are exact reals, so NaN cannot occur.
- `build_job_embeddings`' encoder is the parameter `encode`. The `job['embedding']` field written into each posting in place is modelled as the returned list. Reading and writing the pickle file become the `cache` and `written` values. A failed read is `None`.
- `wait_for_embeddings`, the background thread, clocks and the `embeddings_ready` flag are left out. The model searches with the embeddings already built.
- The stanza pass in `process_message` (`app.py:260-266`) is left out because it only feeds a log line.
- `Text.Lower`, `Text.Upper`: only ASCII letters change case. Python's Unicode case mapping is not modelled.
- `Moderation.DetectBiasIgnoresCase`: the invariance is proved only under the ASCII case mapping of the model. Python's full mapping breaks it. `"ſtereotype".upper()` is `"STEREOTYPE"` (the long s, U+017F, upper-cases to `S`), so `detect_bias` rejects the upper-cased message but not the original. `"typıcal male"` (dotless i, U+0131) behaves the same way.
- `Dialogue.RouteIgnoresCase`: the invariance holds only under the ASCII case mapping too. The Kelvin sign U+212A lower-cases to `k`, so Python routes `"lin\u212A"` as a link request, while in the model it is no keyword.
- `Text.IsDigits`: only the ASCII digits count. Python's `isdigit()` accepts other Unicode digits too, in two kinds.
  - Unicode decimal digits, such as the fullwidth `２` or the Arabic-Indic `٢`, are read by `int()`. With a request waiting, the program therefore selects match 2 on `２` (`app.py:250-258`). The model instead routes `２` as an ordinary message, answers with the fallback and keeps the request.
  - Digits that are not decimal, such as the superscript `²`, pass `isdigit()` but make `int()` raise. That exception is not modelled either.
- `Text.IsSpace`: the whitespace set is the code points Python's `str.isspace()` accepts, listed explicitly.
- Posting values are text. A numeric CSV or JSON value, such as a salary, is modelled already rendered as it would print.
- A short CSV row gets `None` for its missing columns from `csv.DictReader` (`app.py:66`). `get_detail_from_job` prints such a value as `None` (`app.py:220-231`), while the text builder skips it as falsy (`app.py:174`). A posting in the model maps a column to text, so it cannot show both behaviours; such a column is modelled either as absent or as the text `None`.
- `session_details` values are modelled as already rendered text, in the file's key order.
- Timestamps in the history entries are left out. A history entry is only its sender and message.
- The `/chat` JSON body is modelled as two optional fields. Malformed JSON and the 500 reply are not modelled.
- `Text.DigitsValue`: reads a digit string of any length. Since Python 3.11 (and the 3.10.7 and 3.9.14 security releases), `int()` raises `ValueError` on a string of more than 4300 digits. At `app.py:251` that happens before the `pop` at `app.py:252`, so `chat` answers with its 500 text (`app.py:480-482`) and the request stays parked.
- `Dialogue.Respond`: a waiting request and a stripped reply of more than 4300 digits gives, in the model, the selection answer and removes the request. On the Python versions above, the program raises instead and keeps the request.
- `Dialogue.RespondStore`: says a number removes the waiting request. On the Python versions above that fails for a number of more than 4300 digits, which leaves the request in place.
- `Dialogue.PendingLifetime`: "a number always removes the waiting request" holds only for numbers of at most 4300 digits on the Python versions above.
- `Dialogue.SelectionOutOfRange`: for a number of more than 4300 digits, the Python versions above raise and keep the request instead of refusing the number and removing the request.
- `Dialogue.RetryAfterInvalidSelection`: if the first number has more than 4300 digits, the Python versions above raise instead of sending the invalid-selection text, and the request stays.
- The HTTP routes, Supabase authentication, the session-details file and the job-feed loaders are left out. Each is I/O around the core.
- `Data_Extraction.py` is not part of this model.
- Concurrent requests on the shared stores are not modelled. Each method runs one turn at a time on the object's fields.
- `Search.SortByScore`: Python's `list.sort` (Timsort) is modelled by an in-place stable insertion sort. `RankedUnique` shows that every stable descending sort produces this same order.
