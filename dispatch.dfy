/** The scheduled check: fetch both storefronts, diff them against the
    stored snapshot, and decide which Telegram messages to send. Message
    text is not modelled; a message is the list of games it is built from. */
module CheckGiveaways {
  import opened Items
  import opened Seqs
  import Storage
  import Epic
  import Steam

  // ---------------------------------------------------------------------
  // The daily summary (`formatGiveawayMessage`)

  predicate IsActive(g: Item)
  {
    g.isActive
  }

  /** An Epic offer that has a start date but has not started. */
  predicate IsUpcoming(g: Item)
  {
    !g.isActive && g.startDate.Some?
  }

  /** The key the upcoming section is sorted by (only read for items that
      have a start date). */
  function StartKey(g: Item): int
  {
    if g.startDate.Some? then g.startDate.value else 0
  }

  predicate SortedByStart(s: seq<Item>)
  {
    forall i, j :: 0 <= i < j < |s| ==> StartKey(s[i]) <= StartKey(s[j])
  }

  /** Places `g` after every element whose start is not later than its own. */
  function InsertByStart(g: Item, s: seq<Item>): (r: seq<Item>)
    requires SortedByStart(s)
    ensures SortedByStart(r)
    ensures multiset(r) == multiset(s) + multiset{g}
    ensures forall x :: x in r <==> x == g || x in s
  {
    if s == [] then [g]
    else if StartKey(g) < StartKey(s[0]) then [g] + s
    else
      var rest := InsertByStart(g, s[1..]);
      assert s == [s[0]] + s[1..];
      HeadStartsFirst(s, g, rest);
      SortedCons(s[0], rest);
      [s[0]] + rest
  }

  lemma HeadStartsFirst(s: seq<Item>, g: Item, rest: seq<Item>)
    requires SortedByStart(s) && s != [] && StartKey(s[0]) <= StartKey(g)
    requires forall x :: x in rest ==> x == g || x in s[1..]
    ensures forall x :: x in rest ==> StartKey(s[0]) <= StartKey(x)
  {
    forall x | x in rest && x != g
      ensures StartKey(s[0]) <= StartKey(x)
    {
      var k :| 0 <= k < |s[1..]| && s[1..][k] == x;
      assert s[k + 1] == x;
    }
  }

  lemma SortedCons(x: Item, s: seq<Item>)
    requires SortedByStart(s)
    requires forall y :: y in s ==> StartKey(x) <= StartKey(y)
    ensures SortedByStart([x] + s)
  {
    forall i, j | 0 <= i < j < |[x] + s|
      ensures StartKey(([x] + s)[i]) <= StartKey(([x] + s)[j])
    {
      if i > 0 {
        assert ([x] + s)[i] == s[i - 1];
      }
      assert ([x] + s)[j] == s[j - 1] && s[j - 1] in s;
    }
  }

  /** The upcoming section's order: ascending start date. */
  function SortByStart(s: seq<Item>): (r: seq<Item>)
    ensures SortedByStart(r)
    ensures multiset(r) == multiset(s)
  {
    if s == [] then []
    else
      assert s == s[..|s| - 1] + [s[|s| - 1]];
      InsertByStart(s[|s| - 1], SortByStart(s[..|s| - 1]))
  }

  /** The sections of the summary message, in the order they appear.
      `separator` is the rule printed between the Epic and Steam sections. */
  datatype Summary = Summary(
    epicActive: seq<Item>,
    steam: seq<Item>,
    epicUpcoming: seq<Item>,
    separator: bool)

  /** What `formatGiveawayMessage` lists: the active Epic offers in input
      order, then every Steam item, then the upcoming Epic offers by start. */
  function GiveawaySummary(epic: seq<Item>, steam: seq<Item>): (s: Summary)
    ensures forall g :: g in s.epicActive <==> g in epic && g.isActive
    ensures IsSubsequence(s.epicActive, epic)
    ensures forall g :: multiset(s.epicActive)[g] == if g.isActive then multiset(epic)[g] else 0
    ensures s.steam == steam
    ensures forall g :: g in s.epicUpcoming <==> g in epic && !g.isActive && g.startDate.Some?
    ensures forall g :: multiset(s.epicUpcoming)[g] == if IsUpcoming(g) then multiset(epic)[g] else 0
    ensures SortedByStart(s.epicUpcoming)
    ensures s.separator <==> s.epicActive != [] && steam != []
  {
    var active := Filter(epic, IsActive);
    var upcoming := SortByStart(Filter(epic, IsUpcoming));
    assert forall g :: g in upcoming <==> g in multiset(upcoming);
    Summary(active, steam, upcoming, active != [] && steam != [])
  }

  /** No offer appears in both Epic sections. */
  lemma ActiveAndUpcomingDisjoint(epic: seq<Item>, steam: seq<Item>)
    ensures forall g :: g in GiveawaySummary(epic, steam).epicActive ==>
              g !in GiveawaySummary(epic, steam).epicUpcoming
    ensures forall g :: g in epic && g.startDate.Some? ==>
              g in GiveawaySummary(epic, steam).epicActive || g in GiveawaySummary(epic, steam).epicUpcoming
  {
  }

  // ---------------------------------------------------------------------
  // The notification policy (`handler`, after the diff)

  datatype Message =
    | EpicNew(games: seq<Item>)      // "Epic Games" new-games message
    | SteamNew(games: seq<Item>)     // "Steam" new-games message
    | Giveaway(summary: Summary)     // the summary of everything current

  /** Whether each `sendMessage` call that may be made reports success. */
  datatype SendResults = SendResults(epicNew: bool, steamNew: bool, giveaway: bool)

  /** Whether the send of `m` reported success. */
  predicate Delivered(m: Message, results: SendResults)
  {
    match m
    case EpicNew(_) => results.epicNew
    case SteamNew(_) => results.steamNew
    case Giveaway(_) => results.giveaway
  }

  /** The number of messages in `sent` whose send succeeded. */
  function SentCount(sent: seq<Message>, results: SendResults): (n: nat)
    ensures n <= |sent|
  {
    if sent == [] then 0
    else SentCount(sent[..|sent| - 1], results) + if Delivered(sent[|sent| - 1], results) then 1 else 0
  }

  /** The Epic new-games message: sent only when some new offer is
      active, and then with only the active ones. */
  function EpicMessages(changes: Storage.Changes): seq<Message>
  {
    var activeNewEpic := Filter(changes.newEpic, IsActive);
    if activeNewEpic != [] then [EpicNew(activeNewEpic)] else []
  }

  /** The Steam new-games message: sent whenever anything is new. */
  function SteamMessages(changes: Storage.Changes): seq<Message>
  {
    if changes.newSteam != [] then [SteamNew(changes.newSteam)] else []
  }

  function NewGamesMessages(changes: Storage.Changes): seq<Message>
  {
    EpicMessages(changes) + SteamMessages(changes)
  }

  /** Every message the handler tries to send, in order: the summary follows
      only when no new-games message got through and something is current. */
  function Attempts(changes: Storage.Changes, epic: seq<Item>, steam: seq<Item>, results: SendResults): seq<Message>
  {
    var first := NewGamesMessages(changes);
    first
    + (if SentCount(first, results) == 0 && (epic != [] || steam != [])
       then [Giveaway(GiveawaySummary(epic, steam))] else [])
  }

  lemma SentCountAppend(sent: seq<Message>, m: Message, results: SendResults)
    ensures SentCount(sent + [m], results) == SentCount(sent, results) + if Delivered(m, results) then 1 else 0
  {
    assert (sent + [m])[..|sent|] == sent;
  }

  lemma {:induction false} SentCountConcat(a: seq<Message>, b: seq<Message>, results: SendResults)
    ensures SentCount(a + b, results) == SentCount(a, results) + SentCount(b, results)
    decreases |b|
  {
    if b == [] {
      assert a + b == a;
    } else {
      var front, last := b[..|b| - 1], b[|b| - 1];
      assert b == front + [last];
      assert a + b == (a + front) + [last];
      SentCountAppend(a + front, last, results);
      SentCountAppend(front, last, results);
      SentCountConcat(a, front, results);
    }
  }

  /** The Epic send of `handler`. */
  method SendEpicNew(changes: Storage.Changes, results: SendResults)
    returns (attempts: seq<Message>, messagesSent: nat)
    ensures attempts == EpicMessages(changes)
    ensures messagesSent == SentCount(attempts, results) <= 1
  {
    attempts, messagesSent := [], 0;
    if changes.newEpic != [] {
      var activeNewEpic := Filter(changes.newEpic, IsActive);
      if activeNewEpic != [] {
        attempts := [EpicNew(activeNewEpic)];
        if results.epicNew {
          messagesSent := messagesSent + 1;
        }
        SentCountAppend([], EpicNew(activeNewEpic), results);
        assert [] + attempts == attempts;
      }
    }
  }

  /** The Steam send of `handler`. */
  method SendSteamNew(changes: Storage.Changes, results: SendResults)
    returns (attempts: seq<Message>, messagesSent: nat)
    ensures attempts == SteamMessages(changes)
    ensures messagesSent == SentCount(attempts, results) <= 1
  {
    attempts, messagesSent := [], 0;
    if changes.newSteam != [] {
      attempts := [SteamNew(changes.newSteam)];
      if results.steamNew {
        messagesSent := messagesSent + 1;
      }
      SentCountAppend([], SteamNew(changes.newSteam), results);
      assert [] + attempts == attempts;
    }
  }

  /** The new-games sends of `handler`, counting successes. */
  method SendNewGames(changes: Storage.Changes, results: SendResults)
    returns (attempts: seq<Message>, messagesSent: nat)
    ensures attempts == NewGamesMessages(changes)
    ensures messagesSent == SentCount(attempts, results)
    ensures messagesSent <= |attempts| <= 2
  {
    var epicSent, epicCount := SendEpicNew(changes, results);
    var steamSent, steamCount := SendSteamNew(changes, results);
    attempts, messagesSent := epicSent + steamSent, epicCount + steamCount;
    SentCountConcat(epicSent, steamSent, results);
  }

  /** The sends of `handler`: the new-games messages, then the summary when
      none of them got through. */
  method Notify(changes: Storage.Changes, epic: seq<Item>, steam: seq<Item>, results: SendResults)
    returns (attempts: seq<Message>, messagesSent: nat)
    ensures attempts == Attempts(changes, epic, steam, results)
    ensures messagesSent == SentCount(attempts, results)
    ensures messagesSent <= 2
  {
    attempts, messagesSent := SendNewGames(changes, results);
    if messagesSent == 0 && (epic != [] || steam != []) {
      var summary := Giveaway(GiveawaySummary(epic, steam));
      SentCountAppend(attempts, summary, results);
      attempts := attempts + [summary];
      if results.giveaway {
        messagesSent := messagesSent + 1;
      }
      AttemptsWithSummary(changes, epic, steam, results);
    } else {
      AttemptsWithoutSummary(changes, epic, steam, results);
    }
  }

  lemma AttemptsWithSummary(changes: Storage.Changes, epic: seq<Item>, steam: seq<Item>, results: SendResults)
    requires SentCount(NewGamesMessages(changes), results) == 0 && (epic != [] || steam != [])
    ensures Attempts(changes, epic, steam, results) ==
              NewGamesMessages(changes) + [Giveaway(GiveawaySummary(epic, steam))]
  {
  }

  lemma AttemptsWithoutSummary(changes: Storage.Changes, epic: seq<Item>, steam: seq<Item>, results: SendResults)
    requires SentCount(NewGamesMessages(changes), results) != 0 || (epic == [] && steam == [])
    ensures Attempts(changes, epic, steam, results) == NewGamesMessages(changes)
  {
    assert NewGamesMessages(changes) + [] == NewGamesMessages(changes);
  }

  /** The new-games messages that got through, counted per platform. */
  lemma {:induction false} NewGamesDelivered(changes: Storage.Changes, results: SendResults)
    ensures SentCount(NewGamesMessages(changes), results) ==
              (if HasActiveNew(changes) && results.epicNew then 1 else 0)
              + (if changes.newSteam != [] && results.steamNew then 1 else 0)
  {
    var activeNewEpic := Filter(changes.newEpic, IsActive);
    var e := EpicMessages(changes);
    ActiveNewNonEmpty(changes);
    assert SentCount([], results) == 0;
    if activeNewEpic != [] {
      SentCountAppend([], EpicNew(activeNewEpic), results);
      assert [] + [EpicNew(activeNewEpic)] == e;
    }
    if changes.newSteam != [] {
      SentCountAppend(e, SteamNew(changes.newSteam), results);
    } else {
      assert e + [] == e;
    }
  }

  lemma ActiveNewNonEmpty(changes: Storage.Changes)
    ensures HasActiveNew(changes) <==> Filter(changes.newEpic, IsActive) != []
  {
    var activeNewEpic := Filter(changes.newEpic, IsActive);
    if activeNewEpic != [] {
      assert activeNewEpic[0] in activeNewEpic;
    }
  }

  /** Some new Epic offer has already started. */
  predicate HasActiveNew(changes: Storage.Changes)
  {
    exists g :: g in changes.newEpic && g.isActive
  }

  /** The whole send sequence of a run, stated without counting: an Epic
      message with the active new offers when there are any, a Steam message
      with every new Steam item when there are any, and the summary when
      neither of those was delivered and something is current. */
  lemma {:induction false} AttemptsExplicit(changes: Storage.Changes, epic: seq<Item>, steam: seq<Item>, results: SendResults)
    ensures Attempts(changes, epic, steam, results) ==
              (if HasActiveNew(changes) then [EpicNew(Filter(changes.newEpic, IsActive))] else [])
              + (if changes.newSteam != [] then [SteamNew(changes.newSteam)] else [])
              + (if !(HasActiveNew(changes) && results.epicNew)
                    && !(changes.newSteam != [] && results.steamNew)
                    && (epic != [] || steam != [])
                 then [Giveaway(GiveawaySummary(epic, steam))] else [])
  {
    NewGamesDelivered(changes, results);
    ActiveNewNonEmpty(changes);
    var e := if HasActiveNew(changes) then [EpicNew(Filter(changes.newEpic, IsActive))] else [];
    var st := if changes.newSteam != [] then [SteamNew(changes.newSteam)] else [];
    assert EpicMessages(changes) == e;
    assert SteamMessages(changes) == st;
    assert NewGamesMessages(changes) == e + st;
    if SentCount(NewGamesMessages(changes), results) == 0 && (epic != [] || steam != []) {
      AttemptsWithSummary(changes, epic, steam, results);
    } else {
      AttemptsWithoutSummary(changes, epic, steam, results);
      assert e + st + [] == e + st;
    }
  }

  // ---------------------------------------------------------------------
  // The request handler

  /** The two environment variables the handler needs. */
  datatype Config = Config(botToken: Option<string>, chatId: Option<string>)

  predicate Configured(c: Config)
  {
    Truthy(c.botToken) && Truthy(c.chatId)
  }

  /** The JSON reply: status 200 with the counts, or status 500. */
  datatype Response =
    | Checked(newEpic: nat, newSteam: nat, messagesSent: nat, stats: Storage.Stats)
    | Misconfigured

  function Status(r: Response): int
  {
    if r.Checked? then 200 else 500
  }

  /** `handler`: the storefront responses, the save outcome and the send
      results stand for the network; `now` for the clock. */
  method Handler(
    config: Config,
    store: Storage.GameStore,
    epicResponse: Fetch<Option<seq<Epic.Element>>>,
    steamFeatured: Fetch<Option<seq<Steam.Special>>>,
    steamPage: Fetch<string>,
    steamDetails: string -> Fetch<Option<Steam.AppDetails>>,
    now: Timestamp,
    save: Storage.WriteOutcome,
    results: SendResults)
    returns (response: Response, attempts: seq<Message>)
    modifies store
    ensures !Configured(config) ==>
              response == Misconfigured && attempts == [] && store.file == old(store.file)
    ensures Configured(config) ==>
              var epic := Epic.GetFreeGames(epicResponse, now);
              var steam := Steam.FreeGames(steamFeatured, steamPage, steamDetails, now);
              var changes := Storage.Diff(old(store.LoadGames()), epic, steam);
              && store.file == Storage.AfterSave(old(store.file), epic, steam, now, save)
              && attempts == Attempts(changes, epic, steam, results)
              && response == Checked(|changes.newEpic|, |changes.newSteam|,
                                     SentCount(attempts, results), Storage.StatsOf(store.file))
    ensures Status(response) == 200 <==> Configured(config)
  {
    if !Configured(config) {
      return Misconfigured, [];
    }
    var epic := Epic.GetFreeGames(epicResponse, now);
    var steam := Steam.GetFreeGames(steamFeatured, steamPage, steamDetails, now);
    var changes := store.UpdateGames(epic, steam, now, save);
    var messagesSent;
    attempts, messagesSent := Notify(changes, epic, steam, results);
    var stats := store.GetStats();
    response := Checked(|changes.newEpic|, |changes.newSteam|, messagesSent, stats);
  }

  // ---------------------------------------------------------------------
  // Properties of a run

  /** A run right after a successful run on the same storefront data sends
      only the summary, and only if something is current. */
  lemma SecondRunSendsOnlySummary(f: Storage.StoredFile, epic: seq<Item>, steam: seq<Item>, now: Timestamp, results: SendResults)
    ensures var changes := Storage.Diff(Storage.LoadFrom(Storage.AfterSave(f, epic, steam, now, Storage.Written)), epic, steam);
            Attempts(changes, epic, steam, results) ==
              if epic != [] || steam != [] then [Giveaway(GiveawaySummary(epic, steam))] else []
  {
    Storage.RepeatedRunReportsNothing(f, epic, steam, now);
  }

  /** The only Epic message a run may attempt lists the active new offers. */
  lemma EpicMessageGames(changes: Storage.Changes, epic: seq<Item>, steam: seq<Item>, results: SendResults)
    ensures forall m :: m in Attempts(changes, epic, steam, results) && m.EpicNew? ==>
              m.games == Filter(changes.newEpic, IsActive)
  {
    var first := NewGamesMessages(changes);
    if SentCount(first, results) == 0 && (epic != [] || steam != []) {
      AttemptsWithSummary(changes, epic, steam, results);
    } else {
      AttemptsWithoutSummary(changes, epic, steam, results);
    }
    forall m | m in Attempts(changes, epic, steam, results) && m.EpicNew?
      ensures m.games == Filter(changes.newEpic, IsActive)
    {
      assert m in first;
      assert m !in SteamMessages(changes);
      assert m in EpicMessages(changes);
    }
  }

  /** Once a run's save has gone through with an Epic offer stored, the
      next run, which loads that file, does not announce an offer with the
      same id in an Epic new-games message. In particular an offer first
      seen while still upcoming, which that run does not announce, is not
      announced by the next run even once it has started. */
  lemma {:induction false} StoredOfferNeverAnnouncedAgain(
    f: Storage.StoredFile, epic1: seq<Item>, steam1: seq<Item>, now: Timestamp,
    epic2: seq<Item>, steam2: seq<Item>, results: SendResults, g: Item)
    requires g in epic1 && Tracked(g)
    ensures forall m, h ::
              (m in Attempts(Storage.Diff(Storage.LoadFrom(Storage.AfterSave(f, epic1, steam1, now, Storage.Written)), epic2, steam2),
                             epic2, steam2, results)
               && m.EpicNew? && h in m.games) ==> h.id != g.id
  {
    var prev := Storage.LoadFrom(Storage.AfterSave(f, epic1, steam1, now, Storage.Written));
    Storage.SaveThenLoad(f, epic1, steam1, now);
    assert g.id.value in Storage.TrackedIds(Storage.Games(prev, Storage.Epic));
    var changes := Storage.Diff(prev, epic2, steam2);
    EpicMessageGames(changes, epic2, steam2, results);
    forall m, h | m in Attempts(changes, epic2, steam2, results) && m.EpicNew? && h in m.games
      ensures h.id != g.id
    {
      assert h in changes.newEpic;
    }
  }

  /** A failed Epic request looks like an empty storefront: that run
      reports every stored Epic offer as ended and stores an empty list, so
      the next run reports every current Epic offer as new again. */
  lemma FailedEpicFetchForgetsOffers(
    f: Storage.StoredFile, steam1: seq<Item>, now: Timestamp, epic2: seq<Item>, steam2: seq<Item>)
    ensures Storage.Diff(Storage.LoadFrom(f), Epic.GetFreeGames(Failed, now), steam1).endedEpic
              == Filter(Storage.LoadFrom(f).epic, Tracked)
    ensures Storage.Diff(Storage.LoadFrom(Storage.AfterSave(f, Epic.GetFreeGames(Failed, now), steam1, now, Storage.Written)),
                         epic2, steam2).newEpic
              == Filter(epic2, Tracked)
  {
    var prev := Storage.LoadFrom(f);
    assert Storage.TrackedIds([]) == {};
    FilterCongruent(prev.epic, Storage.Unseen({}), Tracked);
    Storage.SaveThenLoad(f, [], steam1, now);
    Storage.EmptyStoredListReportsAllTracked(
      Storage.LoadFrom(Storage.AfterSave(f, [], steam1, now, Storage.Written)), epic2, Storage.Epic);
  }

  /** New offers that are all upcoming produce no Epic message. */
  lemma {:induction false} UpcomingOnlyNewEpicIsSilent(changes: Storage.Changes, epic: seq<Item>, steam: seq<Item>, results: SendResults)
    requires forall g :: g in changes.newEpic ==> !g.isActive
    ensures forall m :: m in Attempts(changes, epic, steam, results) ==> !m.EpicNew?
  {
    assert Filter(changes.newEpic, IsActive) == [];
  }
}
