/**
  The domain model of the tournament sign-up manager in app.py: the stored document (a list of
  tournaments, each with its list of participants) and what each handler computes from it,
  written as functions on values. Dates are day numbers; `parse` stands for the date parser
  (`strptime` with "%Y-%m-%d") and `fold` for `str.lower`, both passed in by the caller.
 */
module Tournaments {
  import opened Wrappers
  import opened Text
  import opened Seqs

  /** Days a finished tournament stays in the upcoming view (`PAST_KEEP_DAYS`). */
  const PastKeepDays: int := 60

  /** The form fields of one request, each name with the first value sent under it. */
  type Form = map<string, string>

  /** Per-day status of a participant: ISO date text to "attending", "interested" or "no". */
  type Statuses = map<string, string>

  datatype Participant = Participant(id: string, name: string, statuses: Statuses)

  datatype Tournament = Tournament(
    id: string,
    name: string,
    startDate: int,
    endDate: int,
    location: string,
    link: string,
    description: string,
    participants: seq<Participant>)

  /** `request.form.get(key, "")`. */
  function Field(form: Form, key: string): string {
    if key in form then form[key] else ""
  }

  // ---------- Document invariant ----------

  /** No two participants of one tournament share a folded name. */
  predicate NamesUnique(ps: seq<Participant>, fold: string -> string) {
    forall j, k :: 0 <= j < k < |ps| ==> fold(ps[j].name) != fold(ps[k].name)
  }

  predicate ValidTournament(t: Tournament, fold: string -> string) {
    t.startDate <= t.endDate && NamesUnique(t.participants, fold)
  }

  /** What the handlers keep true of every stored tournament. */
  predicate ValidDocument(ts: seq<Tournament>, fold: string -> string) {
    forall i :: 0 <= i < |ts| ==> ValidTournament(ts[i], fold)
  }

  // ---------- create ----------

  datatype CreateError = MissingNameOrStart | InvalidDate

  /** The text fields `create` reads from its form, each stripped. */
  datatype CreateRequest = CreateRequest(
    name: string,
    startDate: string,
    endDate: string,
    location: string,
    link: string,
    description: string)

  /** The fields of a `create` form; an empty end date falls back to the start date. */
  function ReadCreateForm(form: Form): CreateRequest {
    var start := Strip(Field(form, "start_date"));
    var end := Strip(Field(form, "end_date"));
    CreateRequest(
      Strip(Field(form, "name")), start, if end == [] then start else end,
      Strip(Field(form, "location")), Strip(Field(form, "link")),
      Strip(Field(form, "description")))
  }

  /**
    Every field of the request carries no surrounding whitespace, and the end date is the
    stripped `end_date` field, or the start date when that field is blank.
   */
  lemma ReadCreateFormFields(form: Form)
    ensures var r := ReadCreateForm(form);
            && Strip(r.name) == r.name && Strip(r.startDate) == r.startDate
            && Strip(r.endDate) == r.endDate && Strip(r.location) == r.location
            && Strip(r.link) == r.link && Strip(r.description) == r.description
    ensures ReadCreateForm(form).endDate
            == if Strip(Field(form, "end_date")) == [] then ReadCreateForm(form).startDate
               else Strip(Field(form, "end_date"))
  {
    StripIdempotent(Field(form, "name"));
    StripIdempotent(Field(form, "start_date"));
    StripIdempotent(Field(form, "end_date"));
    StripIdempotent(Field(form, "location"));
    StripIdempotent(Field(form, "link"));
    StripIdempotent(Field(form, "description"));
  }

  /** Both texts parse and the end is not before the start. */
  predicate DatesAccepted(parse: string -> Option<int>, start: string, end: string) {
    parse(start).Some? && parse(end).Some? && parse(start).value <= parse(end).value
  }

  /** The record `create` appends for a request, or the reason it rejects the request. */
  function NewTournament(req: CreateRequest, parse: string -> Option<int>, newId: string)
    : (r: Result<Tournament, CreateError>)
    ensures r == Failure(MissingNameOrStart) <==> req.name == [] || req.startDate == []
    ensures r == Failure(InvalidDate)
            <==> req.name != [] && req.startDate != []
                 && !DatesAccepted(parse, req.startDate, req.endDate)
    ensures r.Success? ==>
              && r.value.id == newId
              && r.value.name == req.name
              && parse(req.startDate) == Some(r.value.startDate)
              && parse(req.endDate) == Some(r.value.endDate)
              && r.value.startDate <= r.value.endDate
              && r.value.location == req.location
              && r.value.link == req.link
              && r.value.description == req.description
              && r.value.participants == []
  {
    if req.name == [] || req.startDate == [] then
      Failure(MissingNameOrStart)
    else if !DatesAccepted(parse, req.startDate, req.endDate) then
      Failure(InvalidDate)
    else
      Success(Tournament(newId, req.name, parse(req.startDate).value, parse(req.endDate).value,
                         req.location, req.link, req.description, []))
  }

  /**
    A request whose end date is its start date (what a blank `end_date` field gives, by
    `ReadCreateFormFields`) is accepted as a single-day tournament when its start parses.
   */
  lemma SingleDayAccepted(req: CreateRequest, parse: string -> Option<int>, newId: string, d: int)
    requires req.name != [] && req.startDate != [] && req.endDate == req.startDate
    requires parse(req.startDate) == Some(d)
    ensures NewTournament(req, parse, newId).Success?
    ensures NewTournament(req, parse, newId).value.startDate == d
    ensures NewTournament(req, parse, newId).value.endDate == d
  {
  }

  /** A created tournament keeps the document valid whatever the folding. */
  lemma CreateKeepsValid(ts: seq<Tournament>, req: CreateRequest, parse: string -> Option<int>,
                         newId: string, fold: string -> string)
    requires ValidDocument(ts, fold)
    requires NewTournament(req, parse, newId).Success?
    ensures ValidDocument(ts + [NewTournament(req, parse, newId).value], fold)
  {
    var t := NewTournament(req, parse, newId).value;
    assert ValidTournament(t, fold);
    AppendKeepsValid(ts, t, fold);
  }

  lemma AppendKeepsValid(ts: seq<Tournament>, t: Tournament, fold: string -> string)
    requires ValidDocument(ts, fold) && ValidTournament(t, fold)
    ensures ValidDocument(ts + [t], fold)
  {
  }

  // ---------- signup ----------

  const StatusPrefix: string := "status_"

  /** A `status_` field name is the prefix followed by what splitting it once at `_` yields. */
  lemma StatusKeys()
    ensures forall key :: StartsWith(key, StatusPrefix) ==>
              '_' in key && key == StatusPrefix + AfterSeparator(key, '_')
  {
    forall key | StartsWith(key, StatusPrefix)
      ensures '_' in key && key == StatusPrefix + AfterSeparator(key, '_')
    {
      StatusKeyOf(key[|StatusPrefix|..]);
      assert key == StatusPrefix + key[|StatusPrefix|..];
    }
  }

  /** Splitting `"status_" + k` once at `_` yields `k`. */
  lemma StatusKeyOf(k: string)
    ensures StartsWith(StatusPrefix + k, StatusPrefix)
    ensures AfterSeparator(StatusPrefix + k, '_') == k
  {
    assert (StatusPrefix + k)[..|StatusPrefix|] == StatusPrefix;
    AfterSeparatorOfPrefix(StatusPrefix, k, '_');
  }

  /** `{key.split("_", 1)[1]: val for key, val in form.items() if key.startswith("status_")}`. */
  function StatusMap(form: Form): Statuses {
    StatusKeys();
    map key | key in form && StartsWith(key, StatusPrefix) :: AfterSeparator(key, '_') := form[key]
  }

  /** The status map holds exactly the `status_` fields, each keyed by the text after the prefix. */
  lemma StatusMapContents(form: Form)
    ensures forall k :: k in StatusMap(form) <==> StatusPrefix + k in form
    ensures forall k :: k in StatusMap(form) ==> StatusMap(form)[k] == form[StatusPrefix + k]
  {
    var m := StatusMap(form);
    forall k ensures k in m <==> StatusPrefix + k in form {
      StatusKeyOf(k);
      if k in m {
        var key :| key in form && StartsWith(key, StatusPrefix) && AfterSeparator(key, '_') == k;
        StatusKeys();
      }
    }
    forall k | k in m ensures m[k] == form[StatusPrefix + k] {
      var key :| key in form && StartsWith(key, StatusPrefix) && AfterSeparator(key, '_') == k;
      StatusKeys();
      assert key == StatusPrefix + k;
    }
  }

  /** The first tournament whose id is `tid`, if any. */
  function FirstTournament(ts: seq<Tournament>, tid: string): (r: Option<nat>)
    ensures r.Some? ==> r.value < |ts| && ts[r.value].id == tid
    ensures r.Some? ==> forall k :: 0 <= k < r.value ==> ts[k].id != tid
    ensures r.None? ==> forall k :: 0 <= k < |ts| ==> ts[k].id != tid
  {
    if ts == [] then None
    else if ts[0].id == tid then Some(0)
    else match FirstTournament(ts[1..], tid)
      case None => None
      case Some(k) => Some(k + 1)
  }

  /** The first participant whose folded name is that of `name`, if any. */
  function FirstNamed(ps: seq<Participant>, name: string, fold: string -> string): (r: Option<nat>)
    ensures r.Some? ==> r.value < |ps| && fold(ps[r.value].name) == fold(name)
    ensures r.Some? ==> forall k :: 0 <= k < r.value ==> fold(ps[k].name) != fold(name)
    ensures r.None? ==> forall k :: 0 <= k < |ps| ==> fold(ps[k].name) != fold(name)
  {
    if ps == [] then None
    else if fold(ps[0].name) == fold(name) then Some(0)
    else match FirstNamed(ps[1..], name, fold)
      case None => None
      case Some(k) => Some(k + 1)
  }

  /** A tournament's participants after `name` signs up with `statuses`. */
  function SignUpIn(ps: seq<Participant>, name: string, statuses: Statuses,
                    fold: string -> string, newId: string): seq<Participant>
  {
    match FirstNamed(ps, name, fold)
    case Some(j) => ps[j := ps[j].(statuses := statuses)]
    case None => ps + [Participant(newId, name, statuses)]
  }

  /** The document after `name` signs up for the first tournament with id `tid`. */
  function Upsert(ts: seq<Tournament>, tid: string, name: string, statuses: Statuses,
                  fold: string -> string, newId: string): seq<Tournament>
  {
    match FirstTournament(ts, tid)
    case None => ts
    case Some(i) => ts[i := ts[i].(participants := SignUpIn(ts[i].participants, name, statuses, fold, newId))]
  }

  /** An unknown tournament id changes nothing. */
  lemma UpsertUnknownTournament(ts: seq<Tournament>, tid: string, name: string,
                                statuses: Statuses, fold: string -> string, newId: string)
    requires forall k :: 0 <= k < |ts| ==> ts[k].id != tid
    ensures Upsert(ts, tid, name, statuses, fold, newId) == ts
  {
  }

  /**
    A participant of the target tournament with the same folded name keeps its place, id and
    name and gets the new statuses; nothing else in the document changes.
   */
  lemma UpsertExisting(ts: seq<Tournament>, tid: string, name: string, statuses: Statuses,
                       fold: string -> string, newId: string, i: nat, j: nat)
    requires i < |ts| && ts[i].id == tid
    requires forall k :: 0 <= k < i ==> ts[k].id != tid
    requires j < |ts[i].participants| && fold(ts[i].participants[j].name) == fold(name)
    requires forall k :: 0 <= k < j ==> fold(ts[i].participants[k].name) != fold(name)
    ensures var r := Upsert(ts, tid, name, statuses, fold, newId);
            && |r| == |ts|
            && (forall k :: 0 <= k < |ts| && k != i ==> r[k] == ts[k])
            && r[i].(participants := ts[i].participants) == ts[i]
            && |r[i].participants| == |ts[i].participants|
            && r[i].participants[j].id == ts[i].participants[j].id
            && r[i].participants[j].name == ts[i].participants[j].name
            && r[i].participants[j].statuses == statuses
            && (forall k :: 0 <= k < |ts[i].participants| && k != j ==>
                              r[i].participants[k] == ts[i].participants[k])
  {
    assert FirstTournament(ts, tid) == Some(i);
    assert FirstNamed(ts[i].participants, name, fold) == Some(j);
  }

  /**
    When no participant of the target tournament has the folded name, exactly one participant
    is appended to it; nothing else in the document changes.
   */
  lemma UpsertNew(ts: seq<Tournament>, tid: string, name: string, statuses: Statuses,
                  fold: string -> string, newId: string, i: nat)
    requires i < |ts| && ts[i].id == tid
    requires forall k :: 0 <= k < i ==> ts[k].id != tid
    requires forall k :: 0 <= k < |ts[i].participants| ==> fold(ts[i].participants[k].name) != fold(name)
    ensures var r := Upsert(ts, tid, name, statuses, fold, newId);
            && |r| == |ts|
            && (forall k :: 0 <= k < |ts| && k != i ==> r[k] == ts[k])
            && r[i].(participants := ts[i].participants) == ts[i]
            && r[i].participants == ts[i].participants + [Participant(newId, name, statuses)]
  {
    assert FirstTournament(ts, tid) == Some(i);
  }

  /** Signing up keeps names unique: an upsert never duplicates a participant. */
  lemma SignUpInKeepsNamesUnique(ps: seq<Participant>, name: string, statuses: Statuses,
                                 fold: string -> string, newId: string)
    requires NamesUnique(ps, fold)
    ensures NamesUnique(SignUpIn(ps, name, statuses, fold, newId), fold)
  {
    var r := SignUpIn(ps, name, statuses, fold, newId);
    match FirstNamed(ps, name, fold)
    case Some(j) =>
      assert forall k :: 0 <= k < |ps| ==> r[k].name == ps[k].name;
    case None =>
      assert forall k :: 0 <= k < |ps| ==> r[k] == ps[k];
      assert r[|ps|].name == name;
  }

  lemma UpsertKeepsValid(ts: seq<Tournament>, tid: string, name: string, statuses: Statuses,
                         fold: string -> string, newId: string)
    requires ValidDocument(ts, fold)
    ensures ValidDocument(Upsert(ts, tid, name, statuses, fold, newId), fold)
  {
    match FirstTournament(ts, tid)
    case None =>
    case Some(i) =>
      assert ValidTournament(ts[i], fold);
      SignUpInKeepsNamesUnique(ts[i].participants, name, statuses, fold, newId);
  }

  /**
    Signing up twice for one tournament under names that fold alike adds at most one
    participant: the second sign-up updates the participant the first one left, and its
    statuses are the ones that remain.
   */
  lemma SignupTwiceUpdates(ts: seq<Tournament>, tid: string, fold: string -> string,
                           name1: string, statuses1: Statuses, id1: string,
                           name2: string, statuses2: Statuses, id2: string, i: nat)
    requires FirstTournament(ts, tid) == Some(i)
    requires fold(name1) == fold(name2)
    ensures var r1 := Upsert(ts, tid, name1, statuses1, fold, id1);
            var r2 := Upsert(r1, tid, name2, statuses2, fold, id2);
            && |r2| == |ts|
            && |r2[i].participants| == |r1[i].participants| <= |ts[i].participants| + 1
            && FirstNamed(r1[i].participants, name2, fold).Some?
            && r2[i].participants[FirstNamed(r1[i].participants, name2, fold).value].statuses == statuses2
  {
    var r1 := Upsert(ts, tid, name1, statuses1, fold, id1);
    var ps := ts[i].participants;
    var ps1 := SignUpIn(ps, name1, statuses1, fold, id1);
    assert r1[i].participants == ps1;
    assert FirstTournament(r1, tid) == Some(i) by {
      assert forall k :: 0 <= k < |ts| ==> r1[k].id == ts[k].id;
    }
    match FirstNamed(ps, name1, fold)
    case Some(j) =>
      assert fold(ps1[j].name) == fold(name2);
    case None =>
      assert ps1[|ps|].name == name1;
  }

  // ---------- admin deletions ----------

  function NotTournament(tid: string): Tournament -> bool {
    (t: Tournament) => t.id != tid
  }

  function NotParticipant(pid: string): Participant -> bool {
    (p: Participant) => p.id != pid
  }

  /** `[t for t in data["tournaments"] if t["id"] != tid]`. */
  function WithoutTournament(ts: seq<Tournament>, tid: string): seq<Tournament> {
    Filter(ts, NotTournament(tid))
  }

  /**
    `delete_tournament` removes exactly the tournaments with id `tid` and keeps each other
    tournament as often as it occurred; `DeleteTournamentKeepsOrder` gives their order.
   */
  lemma DeleteTournamentEffect(ts: seq<Tournament>, tid: string)
    ensures forall t :: t in WithoutTournament(ts, tid) <==> t in ts && t.id != tid
    ensures forall t :: multiset(WithoutTournament(ts, tid))[t]
                        == if t.id == tid then 0 else multiset(ts)[t]
    ensures (forall k :: 0 <= k < |ts| ==> ts[k].id != tid) ==> WithoutTournament(ts, tid) == ts
  {
    forall t ensures t in WithoutTournament(ts, tid) <==> t in ts && t.id != tid {
      FilterMembership(ts, NotTournament(tid), t);
    }
    forall t ensures multiset(WithoutTournament(ts, tid))[t]
                     == if t.id == tid then 0 else multiset(ts)[t] {
      FilterCount(ts, NotTournament(tid), t);
    }
    if forall k :: 0 <= k < |ts| ==> ts[k].id != tid {
      FilterKeepsAll(ts, NotTournament(tid));
    }
  }

  /** Deleting from a concatenation deletes from each part: the survivors keep their order. */
  lemma DeleteTournamentKeepsOrder(a: seq<Tournament>, b: seq<Tournament>, tid: string)
    ensures WithoutTournament(a + b, tid) == WithoutTournament(a, tid) + WithoutTournament(b, tid)
  {
    FilterAppend(a, b, NotTournament(tid));
  }

  lemma DeleteTournamentKeepsValid(ts: seq<Tournament>, tid: string, fold: string -> string)
    requires ValidDocument(ts, fold)
    ensures ValidDocument(WithoutTournament(ts, tid), fold)
  {
    var r := WithoutTournament(ts, tid);
    forall i | 0 <= i < |r| ensures ValidTournament(r[i], fold) {
      FilterMembership(ts, NotTournament(tid), r[i]);
    }
  }

  /** One tournament as `delete_participant` leaves it. */
  function PruneTournament(t: Tournament, tid: string, pid: string): Tournament {
    if t.id == tid then t.(participants := Filter(t.participants, NotParticipant(pid))) else t
  }

  /** The document after `delete_participant(tid, pid)`. */
  function WithoutParticipant(ts: seq<Tournament>, tid: string, pid: string): seq<Tournament> {
    seq(|ts|, i requires 0 <= i < |ts| => PruneTournament(ts[i], tid, pid))
  }

  /**
    `delete_participant` removes exactly the participants with id `pid` from every tournament
    with id `tid`, keeps every other participant as often as it occurred, and leaves every other
    tournament, and every other field, as it was.
   */
  lemma DeleteParticipantEffect(ts: seq<Tournament>, tid: string, pid: string, i: nat)
    requires i < |ts|
    ensures var r := WithoutParticipant(ts, tid, pid);
            && |r| == |ts|
            && (ts[i].id != tid ==> r[i] == ts[i])
            && r[i].(participants := ts[i].participants) == ts[i]
            && (ts[i].id == tid ==>
                  forall p :: p in r[i].participants <==> p in ts[i].participants && p.id != pid)
    ensures var r := WithoutParticipant(ts, tid, pid);
            ts[i].id == tid ==>
              forall p :: multiset(r[i].participants)[p]
                          == if p.id == pid then 0 else multiset(ts[i].participants)[p]
  {
    if ts[i].id == tid {
      forall p ensures multiset(WithoutParticipant(ts, tid, pid)[i].participants)[p]
                       == if p.id == pid then 0 else multiset(ts[i].participants)[p] {
        FilterCount(ts[i].participants, NotParticipant(pid), p);
      }
      forall p ensures p in WithoutParticipant(ts, tid, pid)[i].participants
                       <==> p in ts[i].participants && p.id != pid {
        FilterMembership(ts[i].participants, NotParticipant(pid), p);
      }
    }
  }

  /** Removing participants keeps the remaining names unique. */
  lemma {:induction false} FilterKeepsNamesUnique(ps: seq<Participant>, pid: string, fold: string -> string)
    requires NamesUnique(ps, fold)
    ensures NamesUnique(Filter(ps, NotParticipant(pid)), fold)
  {
    if ps != [] {
      var rest := Filter(ps[1..], NotParticipant(pid));
      FilterKeepsNamesUnique(ps[1..], pid, fold);
      if ps[0].id != pid {
        HeadNameIsFresh(ps, fold);
        forall x | x in rest ensures fold(x.name) != fold(ps[0].name) {
          FilterMembership(ps[1..], NotParticipant(pid), x);
        }
        ConsKeepsNamesUnique(ps[0], rest, fold);
      }
    }
  }

  lemma HeadNameIsFresh(ps: seq<Participant>, fold: string -> string)
    requires ps != [] && NamesUnique(ps, fold)
    ensures forall x :: x in ps[1..] ==> fold(x.name) != fold(ps[0].name)
  {
    forall x | x in ps[1..] ensures fold(x.name) != fold(ps[0].name) {
      var m :| 0 <= m < |ps[1..]| && ps[1..][m] == x;
      assert ps[m + 1] == x;
    }
  }

  lemma ConsKeepsNamesUnique(p: Participant, ps: seq<Participant>, fold: string -> string)
    requires NamesUnique(ps, fold)
    requires forall x :: x in ps ==> fold(x.name) != fold(p.name)
    ensures NamesUnique([p] + ps, fold)
  {
    var r := [p] + ps;
    forall j, k | 0 <= j < k < |r| ensures fold(r[j].name) != fold(r[k].name) {
      assert r[k] == ps[k - 1];
      if j > 0 {
        assert r[j] == ps[j - 1];
      }
    }
  }

  lemma DeleteParticipantKeepsValid(ts: seq<Tournament>, tid: string, pid: string, fold: string -> string)
    requires ValidDocument(ts, fold)
    ensures ValidDocument(WithoutParticipant(ts, tid, pid), fold)
  {
    forall i | 0 <= i < |ts| ensures ValidTournament(WithoutParticipant(ts, tid, pid)[i], fold) {
      assert ValidTournament(ts[i], fold);
      FilterKeepsNamesUnique(ts[i].participants, pid, fold);
    }
  }

  // ---------- listing (_filter_lists) ----------

  /** A tournament as the list views show it: its participants sorted, and its days spelled out. */
  datatype Listing = Listing(tournament: Tournament, dates: seq<int>)

  /** The days `start`, `start + 1`, ..., `end` (none when `end < start`). */
  function DayRange(start: int, end: int): (r: seq<int>)
    decreases end - start
    ensures |r| == if end < start then 0 else end - start + 1
    ensures forall i :: 0 <= i < |r| ==> r[i] == start + i
  {
    if end < start then [] else DayRange(start, end - 1) + [end]
  }

  /** The first day on which a finished tournament still counts as upcoming. */
  function Border(today: int): int {
    today - PastKeepDays
  }

  predicate IsUpcoming(t: Tournament, today: int) {
    t.endDate >= Border(today)
  }

  /** `key=lambda p: p["name"].lower()`: participants ordered by folded name. */
  function ByFoldedName(fold: string -> string): (Participant, Participant) -> bool {
    (p: Participant, q: Participant) => LexLe(fold(p.name), fold(q.name))
  }

  /** `key=lambda t: _parse(t["start_date"])`. */
  predicate EarlierStart(a: Listing, b: Listing) {
    a.tournament.startDate <= b.tournament.startDate
  }

  /** The same key with `reverse=True`. */
  predicate LaterStart(a: Listing, b: Listing) {
    a.tournament.startDate >= b.tournament.startDate
  }

  /** One tournament as `_filter_lists` leaves it. */
  function Prepare(t: Tournament, fold: string -> string): Listing {
    Listing(t.(participants := SortBy(t.participants, ByFoldedName(fold))),
            DayRange(t.startDate, t.endDate))
  }

  /** Every tournament of the document, prepared, in stored order. */
  function Prepared(ts: seq<Tournament>, fold: string -> string): seq<Listing> {
    seq(|ts|, i requires 0 <= i < |ts| => Prepare(ts[i], fold))
  }

  /** The upcoming tournaments, prepared, in stored order (before the final sort). */
  function UpcomingOf(ts: seq<Tournament>, today: int, fold: string -> string): seq<Listing> {
    if ts == [] then []
    else
      var last := ts[|ts| - 1];
      UpcomingOf(ts[..|ts| - 1], today, fold)
        + (if IsUpcoming(last, today) then [Prepare(last, fold)] else [])
  }

  /** The archived tournaments, prepared, in stored order (before the final sort). */
  function ArchiveOf(ts: seq<Tournament>, today: int, fold: string -> string): seq<Listing> {
    if ts == [] then []
    else
      var last := ts[|ts| - 1];
      ArchiveOf(ts[..|ts| - 1], today, fold)
        + (if IsUpcoming(last, today) then [] else [Prepare(last, fold)])
  }

  /** The views' orderings are total and transitive. */
  lemma OrderingsAreTotal(fold: string -> string)
    ensures Total(ByFoldedName(fold)) && Transitive(ByFoldedName(fold))
    ensures Total(EarlierStart) && Transitive(EarlierStart)
    ensures Total(LaterStart) && Transitive(LaterStart)
  {
    forall p: Participant, q: Participant
      ensures ByFoldedName(fold)(p, q) || ByFoldedName(fold)(q, p)
    {
      LexLeTotal(fold(p.name), fold(q.name));
    }
    forall p: Participant, q: Participant, o: Participant
      | ByFoldedName(fold)(p, q) && ByFoldedName(fold)(q, o)
      ensures ByFoldedName(fold)(p, o)
    {
      LexLeTransitive(fold(p.name), fold(q.name), fold(o.name));
    }
  }

  /** A prepared tournament shows its stored participants in name order and its every day. */
  predicate WellPrepared(l: Listing, fold: string -> string) {
    Sorted(l.tournament.participants, ByFoldedName(fold))
    && l.dates == DayRange(l.tournament.startDate, l.tournament.endDate)
  }

  lemma PrepareFacts(t: Tournament, fold: string -> string)
    ensures WellPrepared(Prepare(t, fold), fold)
    ensures Prepare(t, fold).tournament.(participants := t.participants) == t
    ensures multiset(Prepare(t, fold).tournament.participants) == multiset(t.participants)
  {
    OrderingsAreTotal(fold);
    SortBySorted(t.participants, ByFoldedName(fold));
  }

  /**
    The split loses and duplicates nothing: together the two sides hold every prepared
    tournament exactly as often as the document does.
   */
  lemma {:induction false} PartitionIsComplete(ts: seq<Tournament>, today: int, fold: string -> string)
    ensures multiset(UpcomingOf(ts, today, fold)) + multiset(ArchiveOf(ts, today, fold))
            == multiset(Prepared(ts, fold))
  {
    if ts != [] {
      var n := |ts| - 1;
      PartitionIsComplete(ts[..n], today, fold);
      PreparedLast(ts, fold);
      var l := Prepare(ts[n], fold);
      if IsUpcoming(ts[n], today) {
        assert UpcomingOf(ts, today, fold) == UpcomingOf(ts[..n], today, fold) + [l];
        assert ArchiveOf(ts, today, fold) == ArchiveOf(ts[..n], today, fold);
      } else {
        assert UpcomingOf(ts, today, fold) == UpcomingOf(ts[..n], today, fold);
        assert ArchiveOf(ts, today, fold) == ArchiveOf(ts[..n], today, fold) + [l];
      }
    }
  }

  lemma PreparedLast(ts: seq<Tournament>, fold: string -> string)
    requires ts != []
    ensures Prepared(ts, fold) == Prepared(ts[..|ts| - 1], fold) + [Prepare(ts[|ts| - 1], fold)]
  {
    var n := |ts| - 1;
    var a := Prepared(ts, fold);
    var b := Prepared(ts[..n], fold) + [Prepare(ts[n], fold)];
    assert |a| == |b|;
    forall i | 0 <= i < |a| ensures a[i] == b[i] {
      if i < n {
        assert ts[..n][i] == ts[i];
      }
    }
  }

  /** Each side holds only tournaments of its kind, all of them well prepared. */
  lemma {:induction false} PartitionSides(ts: seq<Tournament>, today: int, fold: string -> string)
    ensures forall l :: l in UpcomingOf(ts, today, fold) ==>
              IsUpcoming(l.tournament, today) && WellPrepared(l, fold)
    ensures forall l :: l in ArchiveOf(ts, today, fold) ==>
              !IsUpcoming(l.tournament, today) && WellPrepared(l, fold)
  {
    if ts != [] {
      var n := |ts| - 1;
      PartitionSides(ts[..n], today, fold);
      PrepareFacts(ts[n], fold);
    }
  }

  /** Every stored tournament is listed on the side its end date calls for. */
  lemma PlacedOnItsSide(ts: seq<Tournament>, today: int, fold: string -> string, i: nat)
    requires i < |ts|
    ensures Prepare(ts[i], fold) in UpcomingOf(ts, today, fold) <==> IsUpcoming(ts[i], today)
    ensures Prepare(ts[i], fold) in ArchiveOf(ts, today, fold) <==> !IsUpcoming(ts[i], today)
  {
    var l := Prepare(ts[i], fold);
    PartitionIsComplete(ts, today, fold);
    PartitionSides(ts, today, fold);
    assert Prepared(ts, fold)[i] == l;
    assert multiset(Prepared(ts, fold))[l] > 0;
    assert l.tournament.endDate == ts[i].endDate;
  }

  /**
    What the two views hold: between them every stored tournament exactly once, on the
    upcoming side exactly when it ends on or after the border day (`today - PastKeepDays`),
    each well prepared; upcoming ascending and archive descending by start date.
   */
  lemma ViewsAreSplitAndSorted(ts: seq<Tournament>, today: int, fold: string -> string)
    ensures var up := SortBy(UpcomingOf(ts, today, fold), EarlierStart);
            var ar := SortBy(ArchiveOf(ts, today, fold), LaterStart);
            && multiset(up) + multiset(ar) == multiset(Prepared(ts, fold))
            && (forall i :: 0 <= i < |ts| ==>
                  (Prepare(ts[i], fold) in up <==> ts[i].endDate >= today - PastKeepDays))
            && (forall i :: 0 <= i < |ts| ==>
                  (Prepare(ts[i], fold) in ar <==> ts[i].endDate < today - PastKeepDays))
            && (forall l :: l in up ==>
                  l.tournament.endDate >= today - PastKeepDays && WellPrepared(l, fold))
            && (forall l :: l in ar ==>
                  l.tournament.endDate < today - PastKeepDays && WellPrepared(l, fold))
            && SortedPairwise(up, EarlierStart)
            && SortedPairwise(ar, LaterStart)
  {
    var u := UpcomingOf(ts, today, fold);
    var a := ArchiveOf(ts, today, fold);
    var up := SortBy(u, EarlierStart);
    var ar := SortBy(a, LaterStart);
    PartitionIsComplete(ts, today, fold);
    PartitionSides(ts, today, fold);
    forall k | 0 <= k < |ts|
      ensures Prepare(ts[k], fold) in up <==> ts[k].endDate >= today - PastKeepDays
      ensures Prepare(ts[k], fold) in ar <==> ts[k].endDate < today - PastKeepDays
    {
      PlacedOnItsSide(ts, today, fold, k);
      SameElements(u, up, Prepare(ts[k], fold));
      SameElements(a, ar, Prepare(ts[k], fold));
    }
    forall l | l in up ensures l in u {
      SameElements(u, up, l);
    }
    forall l | l in ar ensures l in a {
      SameElements(a, ar, l);
    }
    OrderingsAreTotal(fold);
    SortBySorted(u, EarlierStart);
    SortedIsPairwise(up, EarlierStart);
    SortBySorted(a, LaterStart);
    SortedIsPairwise(ar, LaterStart);
  }

  lemma SameElements<T>(s: seq<T>, r: seq<T>, x: T)
    requires multiset(s) == multiset(r)
    ensures x in s <==> x in r
  {
    assert x in s <==> multiset(s)[x] > 0;
    assert x in r <==> multiset(r)[x] > 0;
  }
}
