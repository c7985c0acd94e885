/**
  The route handlers of app.py that change or read the stored document, as methods of the
  document they load: `create`, `signup`, `delete_tournament`, `delete_participant` and the
  list computation `_filter_lists` behind the index and archive views. The fresh uuid, the
  current day and the admin session flag are parameters.
 */
module App {
  import opened Wrappers
  import opened Text
  import opened Seqs
  import opened Tournaments

  /** The loaded document: its list of tournaments, in stored order. */
  class Store {
    var tournaments: seq<Tournament>

    /** `_load()` when there is no data file yet. */
    constructor ()
      ensures tournaments == []
    {
      tournaments := [];
    }

    /** A document whose data file holds `ts`. */
    constructor Load(ts: seq<Tournament>)
      ensures tournaments == ts
    {
      tournaments := ts;
    }

    /** `create`: appends the new tournament, or leaves the document as it was. */
    method Create(form: Form, parse: string -> Option<int>, newId: string, ghost fold: string -> string)
      returns (r: Result<Tournament, CreateError>)
      modifies this
      ensures r == NewTournament(ReadCreateForm(form), parse, newId)
      ensures r.Success? ==> tournaments == old(tournaments) + [r.value]
      ensures r.Failure? ==> tournaments == old(tournaments)
      ensures ValidDocument(old(tournaments), fold) ==> ValidDocument(tournaments, fold)
    {
      var req := ReadCreateForm(form);
      r := NewTournament(req, parse, newId);
      if r.Failure? {
        return;
      }
      ghost var before := tournaments;
      tournaments := tournaments + [r.value];
      if ValidDocument(before, fold) {
        CreateKeepsValid(before, req, parse, newId, fold);
      }
    }

    /**
      `signup(tid)`: without a player name nothing is saved; otherwise the first tournament with
      id `tid` gets the player upserted, as `Upsert` describes.
     */
    method Signup(tid: string, form: Form, fold: string -> string, newId: string)
      returns (saved: bool)
      modifies this
      ensures saved <==> Strip(Field(form, "player")) != []
      ensures tournaments == if saved
                             then Upsert(old(tournaments), tid, Strip(Field(form, "player")),
                                         StatusMap(form), fold, newId)
                             else old(tournaments)
      ensures ValidDocument(old(tournaments), fold) ==> ValidDocument(tournaments, fold)
    {
      var player := Strip(Field(form, "player"));
      if player == [] {
        return false;
      }
      saved := true;
      UpsertPlayer(tid, player, StatusMap(form), fold, newId);
    }

    /**
      The search of `signup` once the form is read: the first tournament with id `tid` gets
      `name` upserted with `statuses`; without such a tournament nothing changes.
     */
    method UpsertPlayer(tid: string, name: string, statuses: Statuses, fold: string -> string,
                        newId: string)
      modifies this
      ensures tournaments == Upsert(old(tournaments), tid, name, statuses, fold, newId)
      ensures ValidDocument(old(tournaments), fold) ==> ValidDocument(tournaments, fold)
    {
      var i := 0;
      while i < |tournaments|
        invariant 0 <= i <= |tournaments|
        invariant tournaments == old(tournaments)
        invariant forall k :: 0 <= k < i ==> tournaments[k].id != tid
      {
        if tournaments[i].id == tid {
          var t := tournaments[i];
          var j := FindParticipant(t.participants, name, fold);
          assert FirstTournament(tournaments, tid) == Some(i);
          var ps := match j
            case Some(k) => t.participants[k := t.participants[k].(statuses := statuses)]
            case None => t.participants + [Participant(newId, name, statuses)];
          tournaments := tournaments[i := t.(participants := ps)];
          if ValidDocument(old(tournaments), fold) {
            UpsertKeepsValid(old(tournaments), tid, name, statuses, fold, newId);
          }
          return;
        }
        i := i + 1;
      }
    }

    /** `delete_tournament(tid)`: refused without the admin flag, otherwise the filter. */
    method DeleteTournament(tid: string, admin: bool, ghost fold: string -> string) returns (allowed: bool)
      modifies this
      ensures allowed == admin
      ensures tournaments == if admin then WithoutTournament(old(tournaments), tid)
                             else old(tournaments)
      ensures ValidDocument(old(tournaments), fold) ==> ValidDocument(tournaments, fold)
    {
      if !admin {
        return false;
      }
      allowed := true;
      if ValidDocument(tournaments, fold) {
        DeleteTournamentKeepsValid(tournaments, tid, fold);
      }
      tournaments := WithoutTournament(tournaments, tid);
    }

    /**
      `delete_participant(tid, pid)`: refused without the admin flag, otherwise every
      tournament with id `tid` loses its participants with id `pid`.
     */
    method DeleteParticipant(tid: string, pid: string, admin: bool, ghost fold: string -> string)
      returns (allowed: bool)
      modifies this
      ensures allowed == admin
      ensures tournaments == if admin then WithoutParticipant(old(tournaments), tid, pid)
                             else old(tournaments)
      ensures ValidDocument(old(tournaments), fold) ==> ValidDocument(tournaments, fold)
    {
      if !admin {
        return false;
      }
      allowed := true;
      var i := 0;
      while i < |tournaments|
        invariant 0 <= i <= |tournaments| == |old(tournaments)|
        invariant forall k :: 0 <= k < i ==>
                    tournaments[k] == PruneTournament(old(tournaments)[k], tid, pid)
        invariant forall k :: i <= k < |tournaments| ==> tournaments[k] == old(tournaments)[k]
      {
        if tournaments[i].id == tid {
          var t := tournaments[i];
          tournaments := tournaments[i := t.(participants := Filter(t.participants, NotParticipant(pid)))];
        }
        i := i + 1;
      }
      assert tournaments == WithoutParticipant(old(tournaments), tid, pid);
      if ValidDocument(old(tournaments), fold) {
        DeleteParticipantKeepsValid(old(tournaments), tid, pid, fold);
      }
    }

    /**
      `_filter_lists`: the upcoming and the archive view on day `today`, each sorted by start
      date. The stored document is not changed: app.py sorts and annotates a freshly
      loaded copy that it never saves. `ViewsAreSplitAndSorted` states what the two views hold.
     */
    method Lists(today: int, fold: string -> string)
      returns (upcoming: seq<Listing>, archive: seq<Listing>)
      ensures upcoming == SortBy(UpcomingOf(tournaments, today, fold), EarlierStart)
      ensures archive == SortBy(ArchiveOf(tournaments, today, fold), LaterStart)
    {
      upcoming, archive := [], [];
      var i := 0;
      while i < |tournaments|
        invariant 0 <= i <= |tournaments|
        invariant upcoming == UpcomingOf(tournaments[..i], today, fold)
        invariant archive == ArchiveOf(tournaments[..i], today, fold)
      {
        var t := tournaments[i];
        var dates := ExpandDates(t.startDate, t.endDate);
        var listed := Listing(t.(participants := SortBy(t.participants, ByFoldedName(fold))), dates);
        if IsUpcoming(t, today) {
          upcoming := upcoming + [listed];
        } else {
          archive := archive + [listed];
        }
        assert tournaments[..i + 1][..i] == tournaments[..i];
        i := i + 1;
      }
      assert tournaments[..i] == tournaments;
      upcoming := SortBy(upcoming, EarlierStart);
      archive := SortBy(archive, LaterStart);
    }
  }

  /** The inner loop of `signup`: the first participant whose folded name is that of `name`. */
  method FindParticipant(ps: seq<Participant>, name: string, fold: string -> string)
    returns (j: Option<nat>)
    ensures j == FirstNamed(ps, name, fold)
  {
    var k := 0;
    while k < |ps|
      invariant 0 <= k <= |ps|
      invariant forall m :: 0 <= m < k ==> fold(ps[m].name) != fold(name)
    {
      if fold(ps[k].name) == fold(name) {
        return Some(k);
      }
      k := k + 1;
    }
    return None;
  }

  /** The per-day list of `_filter_lists`: one entry per day from `start` to `end`. */
  method ExpandDates(start: int, end: int) returns (dates: seq<int>)
    ensures dates == DayRange(start, end)
  {
    dates := [];
    var d := 0;
    while d < end - start + 1
      invariant 0 <= d <= if end < start then 0 else end - start + 1
      invariant dates == DayRange(start, start + d - 1)
    {
      dates := dates + [start + d];
      d := d + 1;
    }
  }
}
