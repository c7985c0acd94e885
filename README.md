# Tournament sign-up manager: a Dafny model of its domain logic

This project models the core of a small Flask application, `app.py`. Organisers create
tournaments with an inclusive date range. Players sign up per tournament with a status for
each day. An admin can delete tournaments and participants. The index and archive views show
the tournaments split at a 60-day border and sorted.

The stored document is a list of tournament records, each with a list of participant records.
In the model it is the field `tournaments` of the class `App.Store`. The handlers that change
it are methods of that class. Each method is proved equal to a specification function of
module `Tournaments`, and lemmas state what those functions promise.

- `Wrappers`: `Option` and `Result`.
- `Text`: Python's `str.strip()` (with Python's whitespace set written out), `startswith`,
  `split(sep, 1)[1]`, and Python's ordering of strings (lexicographic by code point).
- `Seqs`: a filtering list comprehension, and `list.sort` as a stable insertion sort.
- `Tournaments`: records, the document invariant (end date not before start date, and
  participant names unique after case folding), and the specification of `create`, `signup`,
  the two admin deletions and `_filter_lists`.
- `App`: the class `Store` with the handler methods. Each method holds the loop app.py
  has: the nested search of `signup` (the method `UpsertPlayer`, whose inner loop is the
  method `FindParticipant`), the tournament loop of `delete_participant`, the main loop of
  `_filter_lists` and its per-day loop (the method `ExpandDates`). Each method that changes
  the document also keeps the document invariant.

Some things the handlers get from outside are passed in as parameters:
- the date parser (`strptime` with `%Y-%m-%d`) as `parse: string -> Option<int>`, giving a
  day number or nothing;
- `str.lower` as `fold: string -> string`;
- the fresh uuid as `newId`;
- the current day as `today`;
- the admin session flag as `admin`.

A form is a `map<string, string>`, because werkzeug's `request.form.get` and `items()` see
the first value sent under each field name. A missing field reads as the empty string.

Two details of `_filter_lists` that the model keeps exactly as app.py has them:
- A tournament whose end date is exactly `today - 60` is upcoming (`e_date >= border`,
  app.py:64).
- The sorts allow equal start dates, so upcoming is non-decreasing and archive is
  non-increasing by start date (app.py:71-72).

## Model

| member | source | states |
|---|---|---|
| `Text.IsSpace` | app.py:88 | the code points Python's `str.isspace` accepts, which are the ones `strip()` removes |
| `Text.LeadingSpaces` | app.py:88 | the length of the leading run of whitespace: every character before it is whitespace and the character at it, if any, is not |
| `Text.TrailingStart` | app.py:88 | where the trailing run of whitespace begins: every character from it on is whitespace and the character before it, if any, is not |
| `Text.TrimLeft` | app.py:88 | `s` from the end of its leading whitespace on |
| `Text.TrimRight` | app.py:88 | `s` up to the start of its trailing whitespace |
| `Text.Strip` | app.py:88-93 | Python's `strip()` without arguments: leading whitespace removed, then trailing whitespace removed |
| `Text.StripIsInfix` | app.py:88-93 | `strip()` yields the part between a leading and a trailing run of whitespace, and it neither starts nor ends with whitespace |
| `Text.StripEmpty` | app.py:95 | `strip()` is empty exactly when the input is all whitespace, which is when the input counts as missing |
| `Text.StripIdempotent` | app.py:88-93 | stripping a stripped value changes nothing |
| `Text.StartsWith` | app.py:133 | `key.startswith(prefix)`: the prefix is no longer than the key and equals its first characters |
| `Text.AfterSeparator` | app.py:131 | `split(sep, 1)[1]` is the text after the first occurrence of `sep`, and no earlier character is `sep` |
| `Text.AfterSeparatorOfPrefix` | app.py:131 | when the prefix ends with the first separator, splitting `prefix + x` once yields `x` |
| `Text.LexLe` | app.py:69 | Python's `<=` on strings: a proper prefix comes first, otherwise the first differing code point decides |
| `Text.LexLeTotal` | app.py:69 | any two strings are comparable under Python's string order |
| `Text.LexLeTransitive` | app.py:69 | Python's string order is transitive |
| `Text.LexLeAntisymmetric` | app.py:69 | two strings each at most the other are equal |
| `Seqs.Filter` | app.py:210 | a comprehension is no longer than its input and keeps only elements that pass |
| `Seqs.FilterCount` | app.py:210 | every passing element is kept as often as it occurs, and every other element is dropped |
| `Seqs.FilterMembership` | app.py:210 | an element survives the comprehension exactly when it was in the list and passes |
| `Seqs.FilterAppend` | app.py:210 | the comprehension distributes over concatenation, so survivors keep their order |
| `Seqs.FilterKeepsAll` | app.py:221 | a list whose every element passes comes back unchanged |
| `Seqs.Insert` | app.py:69 | inserting adds exactly one element, the new one, and the rest are a permutation of the old list |
| `Seqs.SortBy` | app.py:69-72 | sorting returns a permutation of the list (same multiset) |
| `Seqs.InsertSorted` | app.py:69 | inserting into a sorted list under a total order keeps it sorted |
| `Seqs.SortBySorted` | app.py:69-72 | under a total order the sorted list has every pair of neighbours in order |
| `Seqs.SortedIsPairwise` | app.py:71-72 | under a transitive order, neighbours in order means every pair is in order |
| `Tournaments.Field` | app.py:88 | `request.form.get(key, "")`: the field's value, or the empty string when the form lacks it |
| `Tournaments.NamesUnique` | app.py:138-147 | no two participants of one tournament have names that fold to the same text, which is what the case-insensitive search of `signup` maintains |
| `Tournaments.ValidDocument` | app.py:95-147 | the document invariant: every tournament ends on or after its start (app.py:102) and has unique folded participant names |
| `Tournaments.ReadCreateForm` | app.py:88-93 | the six fields `create` reads, each stripped, with a blank end date replaced by the start date |
| `Tournaments.ReadCreateFormFields` | app.py:88-93 | every field `create` reads is stripped, and a blank end date falls back to the start date |
| `Tournaments.DatesAccepted` | app.py:99-106 | both dates parse and the end is not before the start, so no `ValueError` is raised |
| `Tournaments.NewTournament` | app.py:95-118 | a request is rejected for a missing name or start date exactly when either is empty; it is rejected for a bad date exactly when a date does not parse or the end is before the start; otherwise the record has the fresh id, the request's fields, the parsed dates with start not after end, and no participants |
| `Tournaments.SingleDayAccepted` | app.py:90-103 | a request whose end date is its start date (a blank end date) is accepted as a single-day tournament when the start parses |
| `Tournaments.CreateKeepsValid` | app.py:102-118 | appending a created tournament keeps the document invariant |
| `Tournaments.StatusKeys` | app.py:130-134 | every `status_` field name is the prefix followed by what splitting it once at `_` yields |
| `Tournaments.StatusKeyOf` | app.py:131-133 | `"status_" + k` starts with the prefix and splits once at `_` into `k` |
| `Tournaments.StatusMap` | app.py:130-134 | the dict comprehension: every form field whose name starts with `status_`, keyed by what follows the first `_` |
| `Tournaments.StatusMapContents` | app.py:130-134 | the status map has key `k` exactly when the form has field `status_k`, and maps it to that field's value |
| `Tournaments.FirstTournament` | app.py:136-137 | finds the first tournament with the id, or reports that none has it |
| `Tournaments.FirstNamed` | app.py:138-139 | finds the first participant whose folded name equals that of the player, or reports that none has it |
| `Tournaments.SignUpIn` | app.py:138-147 | the inner loop and its `else`: the first participant with the player's folded name gets the new statuses, otherwise a participant with the fresh id is appended |
| `Tournaments.Upsert` | app.py:136-148 | the outer loop: the first tournament with id `tid` gets `SignUpIn` applied, and the loop stops there; without one the document is unchanged |
| `Tournaments.UpsertUnknownTournament` | app.py:136-148 | an unknown tournament id leaves the document unchanged |
| `Tournaments.UpsertExisting` | app.py:138-141 | a same-name participant of the first matching tournament gets the new statuses and keeps its id, name and place; participant count, the other participants, the tournament's other fields and every other tournament are unchanged |
| `Tournaments.UpsertNew` | app.py:142-148 | without a same-name participant exactly one participant (fresh id, the player name, the statuses) is appended; everything else is unchanged |
| `Tournaments.SignUpInKeepsNamesUnique` | app.py:138-147 | a signup never creates a second participant with the same folded name |
| `Tournaments.UpsertKeepsValid` | app.py:136-148 | signup keeps the document invariant |
| `Tournaments.SignupTwiceUpdates` | app.py:136-148 | signing up twice under names that fold alike adds at most one participant, and the second sign-up's statuses are what that participant keeps |
| `Tournaments.WithoutTournament` | app.py:210 | the comprehension that keeps every tournament whose id is not `tid` |
| `Tournaments.NotTournament` | app.py:210 | the comprehension's test `t["id"] != tid` |
| `Tournaments.DeleteTournamentEffect` | app.py:210 | exactly the tournaments with the id are removed, each other tournament is kept as often as it occurred, and without a match the document is unchanged |
| `Tournaments.DeleteTournamentKeepsOrder` | app.py:210 | the deletion distributes over concatenation, so the survivors keep their order |
| `Tournaments.DeleteTournamentKeepsValid` | app.py:210 | deleting tournaments keeps the document invariant |
| `Tournaments.NotParticipant` | app.py:221 | the comprehension's test `p["id"] != pid` |
| `Tournaments.PruneTournament` | app.py:219-221 | a tournament with id `tid` keeps only its participants whose id is not `pid`; any other tournament is left as it is |
| `Tournaments.WithoutParticipant` | app.py:219-221 | every tournament of the document pruned, in stored order |
| `Tournaments.DeleteParticipantEffect` | app.py:219-221 | in tournaments with the id, exactly the participants with `pid` are removed and every other participant is kept as often as it occurred; other tournaments and all other fields are unchanged; the document length is unchanged |
| `Tournaments.FilterKeepsNamesUnique` | app.py:221 | removing participants keeps the remaining names unique |
| `Tournaments.HeadNameIsFresh` | app.py:221 | in a list with unique names, no later participant shares the first one's folded name |
| `Tournaments.ConsKeepsNamesUnique` | app.py:221 | putting a participant with a fresh folded name in front keeps names unique |
| `Tournaments.DeleteParticipantKeepsValid` | app.py:219-221 | deleting participants keeps the document invariant |
| `Tournaments.DayRange` | app.py:53-59 | the date list for start `s` and end `e` has `e - s + 1` entries (none when `e < s`), and entry `i` is day `s + i` |
| `Tournaments.Border` | app.py:47 | `today - PAST_KEEP_DAYS`, with the constant `PastKeepDays` = 60 (app.py:18) |
| `Tournaments.IsUpcoming` | app.py:47-64 | a tournament is upcoming when its end day is on or after `today - 60` |
| `Tournaments.ByFoldedName` | app.py:69 | participants compared by their folded names under Python's string order |
| `Tournaments.EarlierStart` | app.py:71 | tournaments compared by start day, ascending |
| `Tournaments.LaterStart` | app.py:72 | tournaments compared by start day, descending (`reverse=True`) |
| `Tournaments.Prepare` | app.py:50-69 | one tournament as the loop leaves it: participants sorted by folded name and the list of its days attached |
| `Tournaments.Prepared` | app.py:49-69 | every tournament of the document prepared, in stored order |
| `Tournaments.UpcomingOf` | app.py:49-67 | the prepared upcoming tournaments in stored order, as `upcoming.append` builds them |
| `Tournaments.ArchiveOf` | app.py:49-67 | the prepared archived tournaments in stored order, as `archive.append` builds them |
| `Tournaments.OrderingsAreTotal` | app.py:69-72 | the three sort orders (folded name, start ascending, start descending) are total and transitive |
| `Tournaments.WellPrepared` | app.py:53-69 | a listed tournament (a `Listing`: the record plus its `dates`) has participants sorted by folded name and one date entry per day from start to end |
| `Tournaments.PrepareFacts` | app.py:53-69 | a listed tournament has its participants sorted by folded name and as a permutation of the stored ones, its full date list, and its other fields unchanged |
| `Tournaments.PreparedLast` | app.py:49 | preparing a list ending in `t` is preparing the rest, then `t` |
| `Tournaments.PartitionIsComplete` | app.py:63-67 | the two sides together hold every prepared tournament exactly as often as the document does |
| `Tournaments.PartitionSides` | app.py:47 | the upcoming side holds only tournaments ending on or after `today - 60`, the archive side only earlier ones, all well prepared |
| `Tournaments.PlacedOnItsSide` | app.py:64-67 | each stored tournament is on the upcoming side exactly when it is upcoming, and on the archive side exactly when it is not |
| `Tournaments.ViewsAreSplitAndSorted` | app.py:44-73 | in the final views every tournament is in exactly one view; it is upcoming exactly when its end is on or after `today - 60`; upcoming is non-decreasing and archive non-increasing by start date; participant lists are sorted by folded name |
| `Tournaments.SameElements` | app.py:71-72 | lists with equal multisets have the same elements, so sorting neither adds nor drops one |
| `App.Store.constructor` | app.py:25-27 | a document without a data file has no tournaments |
| `App.Store.Load` | app.py:28-29 | a loaded document holds the stored tournaments |
| `App.Store.Create` | app.py:86-121 | on success exactly the new record is appended after the unchanged old list; on any rejection the list is unchanged; the document invariant is kept |
| `App.Store.Signup` | app.py:123-154 | a missing player name saves nothing; otherwise the document becomes the upsert of the stripped name with the status map; the document invariant is kept |
| `App.Store.UpsertPlayer` | app.py:136-148 | the nested search gives exactly `Upsert` of the old document, and the document invariant is kept |
| `App.Store.DeleteTournament` | app.py:206-213 | refused, with no change, without the admin flag; otherwise the document becomes the filtered list; the document invariant is kept |
| `App.Store.DeleteParticipant` | app.py:215-224 | refused, with no change, without the admin flag; otherwise the loop prunes every tournament with the id; the document invariant is kept |
| `App.Store.Lists` | app.py:44-73 | the loop yields the upcoming and archive sides of the stored list, sorted ascending and descending by start date, without changing the document |
| `App.FindParticipant` | app.py:138-141 | the inner loop of `signup` finds the first participant whose folded name equals the player's, or none |
| `App.ExpandDates` | app.py:53-59 | the per-day loop yields exactly the day range of the tournament |

## Left out

- YAML persistence (`_load`, `_save`): file I/O and serialisation. The document is the `tournaments` field of a `Store`. A load with no file, or with an empty file, gives an empty list.
- Each request loads, changes and saves the whole file without locking. Concurrent requests can race. Each model method is one request on one document, so the race is not modelled.
- Flask routing, `flash` messages, redirects, the `Referer` fragment and `abort(403)`: HTTP plumbing. Their outcome is the returned value: `Result`, `saved` or `allowed`.
- Admin login and logout and the session cookie: only the resulting `admin` flag is modelled.
- `uuid.uuid4()`, `dt.date.today()`, `strptime` and `str.lower`: randomness, the clock and library code. They are parameters.
- `strftime` display strings (`start_fmt`, `end_fmt`, the `fmt` of each day) and the ISO text of each day. A day in the date list is its day number.
- Tournament records store the parsed day numbers, not the date text. The model assumes `parse` is deterministic, so re-parsing the stored text in `_filter_lists` gives the same days.
- Malformed stored data is not modelled: missing keys, stored dates that do not parse (app.py raises), and date objects written by YAML (the `isinstance` branch of `_parse`). Every record has every field.
- Date arithmetic is on unbounded integers. The `OverflowError` that `today - 60 days` can raise near the smallest representable date is not modelled.
- `Seqs.SortBy`: the definition is a stable insertion sort, as Python's sort is stable (also with `reverse=True`). Stability is not stated as a separate property.
- Rendering: `_render_page`, the admin page, the `all_names` datalist, the template's per-day status lookup (default `"no"`) and the script. This is presentation.
- tests/test_api.py only checks HTTP status codes, so it contains no logic to model.
