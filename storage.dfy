/** The snapshot store and the change detection between two snapshots of
    "currently free games" (lib/storage.js). The JSON file is the field
    `file` of `GameStore`; each platform ("epic", "steam") is diffed on its
    own, by truthy `id` only. */
module Storage {
  import opened Items
  import opened Seqs

  datatype Platform = Epic | Steam

  /** What `loadGames` returns: both platform lists and the last save time. */
  datatype Snapshot = Snapshot(epic: seq<Item>, steam: seq<Item>, lastUpdate: Option<Timestamp>)

  const EmptySnapshot := Snapshot([], [], None)

  /** The parsed JSON document. A key that is missing (or holds a falsy
      value) is `None`. */
  datatype Document = Document(epic: Option<seq<Item>>, steam: Option<seq<Item>>, lastUpdate: Option<Timestamp>)

  /** The data file: not there, there but not parseable, or parsed. */
  datatype StoredFile = Absent | Corrupt | Present(doc: Document)

  /** How a `writeFileSync` call ends: the whole document is written, the
      write is refused before the file is touched, or it fails part-way and
      leaves a file that no longer parses. */
  datatype WriteOutcome = Written | Refused | Truncated

  /** The four change lists `updateGames` returns. */
  datatype Changes = Changes(newEpic: seq<Item>, newSteam: seq<Item>, endedEpic: seq<Item>, endedSteam: seq<Item>)

  const NoChanges := Changes([], [], [], [])

  datatype Stats = Stats(totalEpic: nat, totalSteam: nat, lastUpdate: Option<Timestamp>)

  function Games(s: Snapshot, platform: Platform): seq<Item>
  {
    match platform
    case Epic => s.epic
    case Steam => s.steam
  }

  /** The truthy ids among `items`: the `Set` built once per comparison. */
  function TrackedIds(items: seq<Item>): set<string>
  {
    set g | g in items && Tracked(g) :: g.id.value
  }

  /** The filter callback: a truthy id that is not in `ids`. */
  function Unseen(ids: set<string>): Item -> bool
  {
    g => Tracked(g) && g.id.value !in ids
  }

  /** `findNewGames`: the fresh items whose truthy id the stored list of that
      platform does not hold, in fresh order. */
  function FindNewGames(prev: Snapshot, current: seq<Item>, platform: Platform): (r: seq<Item>)
    ensures IsSubsequence(r, current)
    ensures forall g :: g in r <==>
              g in current && Tracked(g) && g.id.value !in TrackedIds(Games(prev, platform))
    ensures forall g :: multiset(r)[g] ==
              if Tracked(g) && g.id.value !in TrackedIds(Games(prev, platform)) then multiset(current)[g] else 0
  {
    Filter(current, Unseen(TrackedIds(Games(prev, platform))))
  }

  /** `findEndedGames`: the stored items of that platform whose truthy id
      the fresh list does not hold, in stored order. */
  function FindEndedGames(prev: Snapshot, current: seq<Item>, platform: Platform): (r: seq<Item>)
    ensures IsSubsequence(r, Games(prev, platform))
    ensures forall g :: g in r <==>
              g in Games(prev, platform) && Tracked(g) && g.id.value !in TrackedIds(current)
    ensures forall g :: multiset(r)[g] ==
              if Tracked(g) && g.id.value !in TrackedIds(current) then multiset(Games(prev, platform))[g] else 0
  {
    Filter(Games(prev, platform), Unseen(TrackedIds(current)))
  }

  /** The change report of `updateGames` against the loaded snapshot `prev`. */
  function Diff(prev: Snapshot, epic: seq<Item>, steam: seq<Item>): Changes
  {
    Changes(
      FindNewGames(prev, epic, Epic),
      FindNewGames(prev, steam, Steam),
      FindEndedGames(prev, epic, Epic),
      FindEndedGames(prev, steam, Steam))
  }

  /** `loadGames`: the parsed file with defaults for missing keys, or the
      empty snapshot when the file is absent or does not parse. */
  function LoadFrom(f: StoredFile): (s: Snapshot)
    ensures !f.Present? ==> s == EmptySnapshot
    ensures f.Present? ==>
              && s.epic == (if f.doc.epic.Some? then f.doc.epic.value else [])
              && s.steam == (if f.doc.steam.Some? then f.doc.steam.value else [])
              && s.lastUpdate == f.doc.lastUpdate
  {
    match f
    case Present(doc) =>
      Snapshot(
        if doc.epic.Some? then doc.epic.value else [],
        if doc.steam.Some? then doc.steam.value else [],
        doc.lastUpdate)
    case _ => EmptySnapshot
  }

  /** The file after `saveGames` writes both lists stamped with `now`. */
  function AfterSave(f: StoredFile, epic: seq<Item>, steam: seq<Item>, now: Timestamp, outcome: WriteOutcome): StoredFile
  {
    match outcome
    case Written => Present(Document(Some(epic), Some(steam), Some(now)))
    case Refused => f
    case Truncated => Corrupt
  }

  /** `getStats` over a file. */
  function StatsOf(f: StoredFile): Stats
  {
    var s := LoadFrom(f);
    Stats(|s.epic|, |s.steam|, s.lastUpdate)
  }

  /** The storage object: its only state is the data file. */
  class GameStore {
    var file: StoredFile

    /** `ensureDataFile`: a missing file is created holding the empty
        document; a failure is swallowed. */
    constructor (initial: StoredFile, outcome: WriteOutcome)
      ensures initial.Absent? && outcome == Written ==> file == Present(Document(Some([]), Some([]), None))
      ensures initial.Absent? && outcome == Refused ==> file == Absent
      ensures initial.Absent? && outcome == Truncated ==> file == Corrupt
      ensures !initial.Absent? ==> file == initial
    {
      if initial.Absent? {
        match outcome
        case Written => file := Present(Document(Some([]), Some([]), None));
        case Refused => file := Absent;
        case Truncated => file := Corrupt;
      } else {
        file := initial;
      }
    }

    function LoadGames(): (s: Snapshot)
      reads this
      ensures s == LoadFrom(file)
    {
      LoadFrom(file)
    }

    /** `saveGames`: overwrites the file with both lists and a fresh
        `lastUpdate`; reports whether the write went through. */
    method SaveGames(epic: seq<Item>, steam: seq<Item>, now: Timestamp, outcome: WriteOutcome) returns (ok: bool)
      modifies this
      ensures ok <==> outcome == Written
      ensures file == AfterSave(old(file), epic, steam, now, outcome)
      ensures ok ==> LoadGames() == Snapshot(epic, steam, Some(now))
      ensures outcome == Refused ==> LoadGames() == old(LoadGames())
    {
      match outcome
      case Written =>
        file := Present(Document(Some(epic), Some(steam), Some(now)));
        ok := true;
      case Refused =>
        ok := false;
      case Truncated =>
        file := Corrupt;
        ok := false;
    }

    /** `updateGames`: diffs each platform against the loaded snapshot,
        then overwrites the file with the current lists. The report does not
        depend on how the save ended. */
    method UpdateGames(epic: seq<Item>, steam: seq<Item>, now: Timestamp, outcome: WriteOutcome) returns (changes: Changes)
      modifies this
      ensures changes == Diff(old(LoadGames()), epic, steam)
      ensures file == AfterSave(old(file), epic, steam, now, outcome)
    {
      var oldGames := LoadGames();
      changes := Changes(
        FindNewGames(oldGames, epic, Epic),
        FindNewGames(oldGames, steam, Steam),
        FindEndedGames(oldGames, epic, Epic),
        FindEndedGames(oldGames, steam, Steam));
      var _ := SaveGames(epic, steam, now, outcome);
    }

    function GetStats(): (r: Stats)
      reads this
      ensures r == StatsOf(file)
    {
      StatsOf(file)
    }
  }

  // ---------------------------------------------------------------------
  // Properties of the diff

  /** Every reported new id is a fresh id the stored list lacked, and every
      such id is reported. */
  lemma NewIdsAreFreshMinusOld(prev: Snapshot, current: seq<Item>, platform: Platform)
    ensures TrackedIds(FindNewGames(prev, current, platform)) == TrackedIds(current) - TrackedIds(Games(prev, platform))
  {
    var r := FindNewGames(prev, current, platform);
    var oldIds := TrackedIds(Games(prev, platform));
    forall k | k in TrackedIds(current) - oldIds ensures k in TrackedIds(r) {
      var g :| g in current && Tracked(g) && g.id.value == k;
      assert g in r;
    }
  }

  /** Ended ids are the stored ids the fresh list lacks. */
  lemma EndedIdsAreOldMinusFresh(prev: Snapshot, current: seq<Item>, platform: Platform)
    ensures TrackedIds(FindEndedGames(prev, current, platform)) == TrackedIds(Games(prev, platform)) - TrackedIds(current)
  {
    var r := FindEndedGames(prev, current, platform);
    forall k | k in TrackedIds(Games(prev, platform)) - TrackedIds(current) ensures k in TrackedIds(r) {
      var g :| g in Games(prev, platform) && Tracked(g) && g.id.value == k;
      assert g in r;
    }
  }

  /** Nothing is reported when the fresh list is the stored list. */
  lemma SameListNoChanges(prev: Snapshot, platform: Platform)
    ensures FindNewGames(prev, Games(prev, platform), platform) == []
    ensures FindEndedGames(prev, Games(prev, platform), platform) == []
  {
  }

  lemma TrackedIdsOfTrackedOnly(s: seq<Item>)
    ensures TrackedIds(Filter(s, Tracked)) == TrackedIds(s)
  {
  }

  /** Items without a truthy id neither appear nor matter: inputs that
      agree on their tracked items give the same report. */
  lemma UntrackedItemsIgnored(o1: Snapshot, o2: Snapshot, f1: seq<Item>, f2: seq<Item>, platform: Platform)
    requires Filter(Games(o1, platform), Tracked) == Filter(Games(o2, platform), Tracked)
    requires Filter(f1, Tracked) == Filter(f2, Tracked)
    ensures FindNewGames(o1, f1, platform) == FindNewGames(o2, f2, platform)
    ensures FindEndedGames(o1, f1, platform) == FindEndedGames(o2, f2, platform)
  {
    TrackedIdsOfTrackedOnly(Games(o1, platform));
    TrackedIdsOfTrackedOnly(Games(o2, platform));
    TrackedIdsOfTrackedOnly(f1);
    TrackedIdsOfTrackedOnly(f2);
    var oldIds := TrackedIds(Games(o1, platform));
    var freshIds := TrackedIds(f1);
    FilterAbsorb(f1, Tracked, Unseen(oldIds));
    FilterAbsorb(f2, Tracked, Unseen(oldIds));
    FilterAbsorb(Games(o1, platform), Tracked, Unseen(freshIds));
    FilterAbsorb(Games(o2, platform), Tracked, Unseen(freshIds));
  }

  /** Changing one platform's lists never changes the other platform's
      report, even when the two platforms share ids. */
  lemma PlatformsIndependent(o1: Snapshot, o2: Snapshot, epic1: seq<Item>, epic2: seq<Item>, steam1: seq<Item>, steam2: seq<Item>)
    ensures o1.epic == o2.epic ==>
              Diff(o1, epic1, steam1).newEpic == Diff(o2, epic1, steam2).newEpic &&
              Diff(o1, epic1, steam1).endedEpic == Diff(o2, epic1, steam2).endedEpic
    ensures o1.steam == o2.steam ==>
              Diff(o1, epic1, steam1).newSteam == Diff(o2, epic2, steam1).newSteam &&
              Diff(o1, epic1, steam1).endedSteam == Diff(o2, epic2, steam1).endedSteam
  {
  }

  /** With no stored list for a platform (missing key, absent or corrupt
      file) every tracked fresh item is new and nothing has ended. */
  lemma EmptyStoredListReportsAllTracked(prev: Snapshot, current: seq<Item>, platform: Platform)
    requires Games(prev, platform) == []
    ensures FindNewGames(prev, current, platform) == Filter(current, Tracked)
    ensures FindEndedGames(prev, current, platform) == []
  {
    assert TrackedIds([]) == {};
    FilterCongruent(current, Unseen({}), Tracked);
  }

  lemma MissingKeyLoadsEmpty(doc: Document, current: seq<Item>)
    requires doc.epic.None?
    ensures FindNewGames(LoadFrom(Present(doc)), current, Epic) == Filter(current, Tracked)
    ensures FindEndedGames(LoadFrom(Present(doc)), current, Epic) == []
  {
    EmptyStoredListReportsAllTracked(LoadFrom(Present(doc)), current, Epic);
  }

  // ---------------------------------------------------------------------
  // Properties of the store across runs

  /** A successful save is read back as written. */
  lemma SaveThenLoad(f: StoredFile, epic: seq<Item>, steam: seq<Item>, now: Timestamp)
    ensures LoadFrom(AfterSave(f, epic, steam, now, Written)) == Snapshot(epic, steam, Some(now))
    ensures StatsOf(AfterSave(f, epic, steam, now, Written)) == Stats(|epic|, |steam|, Some(now))
  {
  }

  /** Saving what was loaded keeps both lists; only `lastUpdate` moves. */
  lemma SaveOfLoadKeepsLists(f: StoredFile, now: Timestamp)
    ensures LoadFrom(AfterSave(f, LoadFrom(f).epic, LoadFrom(f).steam, now, Written)).epic == LoadFrom(f).epic
    ensures LoadFrom(AfterSave(f, LoadFrom(f).epic, LoadFrom(f).steam, now, Written)).steam == LoadFrom(f).steam
  {
  }

  /** Idempotence: a run repeated with the same fresh lists after a
      successful save reports nothing. */
  lemma RepeatedRunReportsNothing(f: StoredFile, epic: seq<Item>, steam: seq<Item>, now: Timestamp)
    ensures Diff(LoadFrom(AfterSave(f, epic, steam, now, Written)), epic, steam) == NoChanges
  {
    var s := LoadFrom(AfterSave(f, epic, steam, now, Written));
    SameListNoChanges(s, Epic);
    SameListNoChanges(s, Steam);
  }

  /** A refused save leaves the stored snapshot as it was, so the next run
      reports the same changes again. */
  lemma RefusedSaveRereports(f: StoredFile, epic: seq<Item>, steam: seq<Item>, now: Timestamp)
    ensures Diff(LoadFrom(AfterSave(f, epic, steam, now, Refused)), epic, steam) == Diff(LoadFrom(f), epic, steam)
  {
  }

  /** A save that leaves a corrupt file makes the next run report every
      tracked item as new and nothing as ended. */
  lemma TruncatedSaveFloods(f: StoredFile, epic: seq<Item>, steam: seq<Item>, now: Timestamp, epic2: seq<Item>, steam2: seq<Item>)
    ensures Diff(LoadFrom(AfterSave(f, epic, steam, now, Truncated)), epic2, steam2)
            == Changes(Filter(epic2, Tracked), Filter(steam2, Tracked), [], [])
  {
    var s := LoadFrom(AfterSave(f, epic, steam, now, Truncated));
    EmptyStoredListReportsAllTracked(s, epic2, Epic);
    EmptyStoredListReportsAllTracked(s, steam2, Steam);
  }
}
