/** The click_events table and repository/click_event_repository.go. */
module ClickStore {
  import opened Wrappers
  import opened Faults

  datatype ClickEvent = ClickEvent(
    key: string,
    urlID: int,
    clickedAt: int,
    userAgent: string,
    referrer: string,
    device: string)

  /** Rows in insertion order. */
  type Rows = seq<ClickEvent>

  function Keys(rows: Rows): set<string> {
    set r <- rows :: r.key
  }

  /** INSERT ... ON CONFLICT (event_key) DO NOTHING. */
  function InsertOnce(rows: Rows, e: ClickEvent): Rows {
    if e.key in Keys(rows) then rows else rows + [e]
  }

  /** The table after Create has met this fate. */
  function TriedRows(rows: Rows, e: ClickEvent, fate: Fate): Rows {
    if fate == LostBefore then rows else InsertOnce(rows, e)
  }

  ghost predicate DistinctKeys(rows: Rows) {
    forall i, j :: 0 <= i < j < |rows| ==> rows[i].key != rows[j].key
  }

  /** However often it is repeated, an insert leaves one row for its key and keeps the others. */
  lemma InsertOnceIsIdempotent(rows: Rows, e: ClickEvent)
    requires DistinctKeys(rows)
    ensures DistinctKeys(InsertOnce(rows, e))
    ensures InsertOnce(rows, e) == rows || InsertOnce(rows, e) == rows + [e]
    ensures Keys(InsertOnce(rows, e)) == Keys(rows) + {e.key}
    ensures InsertOnce(InsertOnce(rows, e), e) == InsertOnce(rows, e)
  {
  }

  class ClickEventRepository {
    var rows: Rows

    constructor ()
      ensures rows == [] && DistinctKeys(rows)
    {
      rows := [];
    }

    method Create(e: ClickEvent, fate: Fate) returns (ok: bool)
      requires DistinctKeys(rows)
      modifies this
      ensures DistinctKeys(rows)
      ensures ok <==> fate == Normal
      ensures rows == TriedRows(old(rows), e, fate)
      ensures rows == old(rows) || (rows == old(rows) + [e] && fate != LostBefore)
      ensures fate != LostBefore ==> e.key in Keys(rows)
    {
      ok := fate == Normal;
      InsertOnceIsIdempotent(rows, e);
      if fate != LostBefore && e.key !in Keys(rows) {
        rows := rows + [e];
      }
    }
  }

  // ---- Analytics ----

  datatype Group = Group(name: string, count: int)

  datatype Analytics = Analytics(total: int, byDevice: seq<Group>, byReferrer: seq<Group>, daily: seq<Group>)

  /** WHERE url_id = $1. */
  function ForURL(rows: Rows, urlID: int): Rows {
    if rows == [] then []
    else ForURL(rows[..|rows| - 1], urlID) + if rows[|rows| - 1].urlID == urlID then [rows[|rows| - 1]] else []
  }

  /** COALESCE(NULLIF(device_category, ''), 'unknown'). */
  function DeviceLabel(e: ClickEvent): string {
    if e.device == "" then "unknown" else e.device
  }

  /** COALESCE(NULLIF(referrer, ''), 'direct'). */
  function ReferrerLabel(e: ClickEvent): string {
    if e.referrer == "" then "direct" else e.referrer
  }

  function CountLabel(rows: Rows, tag: ClickEvent -> string, name: string): nat {
    if rows == [] then 0
    else CountLabel(rows[..|rows| - 1], tag, name) + if tag(rows[|rows| - 1]) == name then 1 else 0
  }

  /** What GROUP BY promises: every tag that occurs once, with its number of rows. */
  ghost predicate IsGrouping(rows: Rows, tag: ClickEvent -> string, groups: seq<Group>) {
    && (forall i, j :: 0 <= i < j < |groups| ==> groups[i].name != groups[j].name)
    && (forall g <- groups :: g.count == CountLabel(rows, tag, g.name) && g.count >= 1)
    && (forall r <- rows :: exists g :: g in groups && g.name == tag(r))
  }

  /** The clicks of a URL are exactly the rows with its number, each as often as it is stored. */
  lemma {:induction false} ForURLFilters(rows: Rows, urlID: int, e: ClickEvent)
    ensures multiset(ForURL(rows, urlID))[e] == if e.urlID == urlID then multiset(rows)[e] else 0
  {
    if rows == [] {
    } else {
      var front, last := rows[..|rows| - 1], rows[|rows| - 1];
      ForURLFilters(front, urlID, e);
      assert rows == front + [last];
    }
  }

  ghost function Labelled(rows: Rows, tag: ClickEvent -> string, name: string): set<int> {
    set i | 0 <= i < |rows| && tag(rows[i]) == name
  }

  lemma {:induction false} LabelsAreCounted(rows: Rows, tag: ClickEvent -> string, name: string)
    ensures CountLabel(rows, tag, name) == |Labelled(rows, tag, name)|
  {
    if rows == [] {
    } else {
      var front, last := rows[..|rows| - 1], |rows| - 1;
      LabelsAreCounted(front, tag, name);
      assert Labelled(rows, tag, name) == Labelled(front, tag, name) + if tag(rows[last]) == name then {last} else {};
    }
  }

  /** The clicks with this device, or with none for "unknown", */
  ghost function WithDevice(rows: Rows, name: string): set<int> {
    set i | 0 <= i < |rows| && (rows[i].device == name || (name == "unknown" && rows[i].device == ""))
  }

  /** and those with this referrer, or with none for "direct". */
  ghost function WithReferrer(rows: Rows, name: string): set<int> {
    set i | 0 <= i < |rows| && (rows[i].referrer == name || (name == "direct" && rows[i].referrer == ""))
  }

  /** What the groups of the two queries name and count; no group has an empty name. */
  lemma GroupsMean(rows: Rows, devices: seq<Group>, referrers: seq<Group>, g: Group)
    requires IsGrouping(rows, DeviceLabel, devices) && IsGrouping(rows, ReferrerLabel, referrers)
    ensures g in devices ==> g.name != "" && g.count == |WithDevice(rows, g.name)|
    ensures g in referrers ==> g.name != "" && g.count == |WithReferrer(rows, g.name)|
  {
    LabelsAreCounted(rows, DeviceLabel, g.name);
    LabelsAreCounted(rows, ReferrerLabel, g.name);
    if g.name == "" {
      assert Labelled(rows, DeviceLabel, g.name) == Labelled(rows, ReferrerLabel, g.name) == {};
    } else {
      assert Labelled(rows, DeviceLabel, g.name) == WithDevice(rows, g.name);
      assert Labelled(rows, ReferrerLabel, g.name) == WithReferrer(rows, g.name);
    }
  }

  function Sum(groups: seq<Group>): int {
    if groups == [] then 0 else Sum(groups[..|groups| - 1]) + groups[|groups| - 1].count
  }

  /** The rows without one tag. */
  function Without(rows: Rows, tag: ClickEvent -> string, name: string): Rows {
    if rows == [] then []
    else
      var last := rows[|rows| - 1];
      Without(rows[..|rows| - 1], tag, name) + if tag(last) == name then [] else [last]
  }

  lemma {:induction false} WithoutCounts(rows: Rows, tag: ClickEvent -> string, name: string)
    ensures |rows| == |Without(rows, tag, name)| + CountLabel(rows, tag, name)
  {
    if rows == [] {
    } else {
      WithoutCounts(rows[..|rows| - 1], tag, name);
    }
  }

  lemma {:induction false} WithoutKeepsOthers(rows: Rows, tag: ClickEvent -> string, name: string, other: string)
    requires other != name
    ensures CountLabel(Without(rows, tag, name), tag, other) == CountLabel(rows, tag, other)
  {
    if rows == [] {
    } else {
      var front, last := rows[..|rows| - 1], rows[|rows| - 1];
      WithoutKeepsOthers(front, tag, name, other);
      var rest := Without(front, tag, name);
      if tag(last) == name {
        assert Without(rows, tag, name) == rest;
      } else {
        assert (rest + [last])[..|rest|] == rest;
      }
    }
  }

  lemma {:induction false} WithoutMembers(rows: Rows, tag: ClickEvent -> string, name: string, r: ClickEvent)
    requires r in Without(rows, tag, name)
    ensures r in rows && tag(r) != name
  {
    var front, last := rows[..|rows| - 1], rows[|rows| - 1];
    if r in Without(front, tag, name) {
      WithoutMembers(front, tag, name, r);
    } else {
      assert r == last;
    }
  }

  lemma RowsHaveGroups(rows: Rows, tag: ClickEvent -> string, groups: seq<Group>)
    requires IsGrouping(rows, tag, groups)
    ensures groups == [] ==> rows == []
  {
    if |rows| > 0 {
      var g :| g in groups && g.name == tag(rows[0]);
    }
  }

  /** A grouping partitions its snapshot. */
  lemma {:induction false} GroupingCountsEveryRow(rows: Rows, tag: ClickEvent -> string, groups: seq<Group>)
    requires IsGrouping(rows, tag, groups)
    ensures Sum(groups) == |rows|
    decreases |groups|
  {
    if groups == [] {
      RowsHaveGroups(rows, tag, groups);
    } else {
      var front, last := groups[..|groups| - 1], groups[|groups| - 1];
      var rest := Without(rows, tag, last.name);
      WithoutCounts(rows, tag, last.name);
      forall i | 0 <= i < |front| ensures front[i].count == CountLabel(rest, tag, front[i].name) {
        assert front[i] == groups[i] && groups[i] in groups;
        WithoutKeepsOthers(rows, tag, last.name, front[i].name);
      }
      forall r <- rest ensures exists g :: g in front && g.name == tag(r) {
        WithoutMembers(rows, tag, last.name, r);
        var g :| g in groups && g.name == tag(r);
        assert g in front;
      }
      GroupingCountsEveryRow(rest, tag, front);
    }
  }

  /** Later snapshots contain at least the clicks of earlier ones. */
  lemma {:induction false} ForURLGrows(rows: Rows, more: Rows, urlID: int)
    ensures |ForURL(rows, urlID)| <= |ForURL(rows + more, urlID)|
  {
    if more == [] {
      assert rows + more == rows;
    } else {
      ForURLGrows(rows, more[..|more| - 1], urlID);
      assert (rows + more)[..|rows + more| - 1] == rows + more[..|more| - 1];
    }
  }

  lemma {:induction false} SnapshotsGrow(earlier: Rows, later: Rows, urlID: int)
    requires earlier <= later
    ensures |ForURL(earlier, urlID)| <= |ForURL(later, urlID)|
  {
    assert later == earlier + later[|earlier|..];
    ForURLGrows(earlier, later[|earlier|..], urlID);
  }

  /** The table after these inserts, one after another. */
  function InsertAll(rows: Rows, events: seq<ClickEvent>): Rows {
    if events == [] then rows
    else InsertOnce(InsertAll(rows, events[..|events| - 1]), events[|events| - 1])
  }

  lemma {:induction false} InsertsExtend(rows: Rows, events: seq<ClickEvent>)
    ensures rows <= InsertAll(rows, events)
  {
    if events == [] {
    } else {
      InsertsExtend(rows, events[..|events| - 1]);
    }
  }

  /** What becomes of one GROUP BY query: it cannot start, its cursor fails after some rows, in
      Scan or, at the end too, in Err, or it delivers everything. */
  datatype CursorFate = Refused | BreaksAfter(rows: nat) | Whole

  predicate Breaks(fate: CursorFate, cursor: seq<Group>) {
    fate.Refused? || (fate.BreaksAfter? && fate.rows <= |cursor|)
  }

  /** One query and its cursor loop: Next, Scan, append, and the check of Err behind it. */
  method ReadGroups(cursor: seq<Group>, fate: CursorFate) returns (r: Result<seq<Group>, ()>)
    ensures r.Err? <==> Breaks(fate, cursor)
    ensures r.Ok? ==> r.value == cursor
  {
    if fate.Refused? {
      return Err(());
    }
    var items: seq<Group> := [];
    for i := 0 to |cursor|
      invariant items == cursor[..i]
      invariant fate.BreaksAfter? ==> fate.rows >= i
    {
      if fate == BreaksAfter(i) {
        return Err(());
      }
      items := items + [cursor[i]];
    }
    r := if fate == BreaksAfter(|cursor|) then Err(()) else Ok(items);
  }

  /** The clicks that workers insert before the second, third and fourth query. */
  datatype Meanwhile = Meanwhile(second: seq<ClickEvent>, third: seq<ClickEvent>, fourth: seq<ClickEvent>)

  function AtDevices(rows: Rows, m: Meanwhile): Rows {
    InsertAll(rows, m.second)
  }

  function AtReferrers(rows: Rows, m: Meanwhile): Rows {
    InsertAll(AtDevices(rows, m), m.third)
  }

  function AtDays(rows: Rows, m: Meanwhile): Rows {
    InsertAll(AtReferrers(rows, m), m.fourth)
  }

  /** The four queries see more and more clicks of the URL. */
  lemma QueriesSeeMore(rows: Rows, m: Meanwhile, urlID: int)
    ensures |ForURL(rows, urlID)| <= |ForURL(AtDevices(rows, m), urlID)| <= |ForURL(AtReferrers(rows, m), urlID)|
            <= |ForURL(AtDays(rows, m), urlID)|
    ensures rows == AtDays(rows, m) ==> rows == AtDevices(rows, m) == AtReferrers(rows, m)
  {
    InsertsExtend(rows, m.second);
    InsertsExtend(AtDevices(rows, m), m.third);
    InsertsExtend(AtReferrers(rows, m), m.fourth);
    SnapshotsGrow(rows, AtDevices(rows, m), urlID);
    SnapshotsGrow(AtDevices(rows, m), AtReferrers(rows, m), urlID);
    SnapshotsGrow(AtReferrers(rows, m), AtDays(rows, m), urlID);
  }

  /** GetAnalytics: four queries, each on the table of its own moment. The cursors are what the
      database's GROUP BY returns then. */
  method GetAnalytics(urlID: int, rows: Rows, meanwhile: Meanwhile, dayName: ClickEvent -> string,
                      devices: seq<Group>, referrers: seq<Group>, days: seq<Group>,
                      countFails: bool, fates: (CursorFate, CursorFate, CursorFate))
    returns (r: Result<Analytics, ()>)
    requires IsGrouping(ForURL(AtDevices(rows, meanwhile), urlID), DeviceLabel, devices)
    requires IsGrouping(ForURL(AtReferrers(rows, meanwhile), urlID), ReferrerLabel, referrers)
    requires IsGrouping(ForURL(AtDays(rows, meanwhile), urlID), dayName, days)
    ensures r.Err? <==> countFails || Breaks(fates.0, devices) || Breaks(fates.1, referrers) || Breaks(fates.2, days)
    ensures r.Ok? ==>
              && r.value.total == |ForURL(rows, urlID)|
              && r.value.byDevice == devices && r.value.byReferrer == referrers && r.value.daily == days
              && r.value.total <= Sum(r.value.byDevice) <= Sum(r.value.byReferrer) <= Sum(r.value.daily)
              && (rows == AtDays(rows, meanwhile) ==>
                    r.value.total == Sum(r.value.byDevice) == Sum(r.value.byReferrer) == Sum(r.value.daily))
  {
    GroupingCountsEveryRow(ForURL(AtDevices(rows, meanwhile), urlID), DeviceLabel, devices);
    GroupingCountsEveryRow(ForURL(AtReferrers(rows, meanwhile), urlID), ReferrerLabel, referrers);
    GroupingCountsEveryRow(ForURL(AtDays(rows, meanwhile), urlID), dayName, days);
    QueriesSeeMore(rows, meanwhile, urlID);
    if countFails {
      return Err(());
    }
    var total := |ForURL(rows, urlID)|;
    var byDevice := ReadGroups(devices, fates.0);
    if byDevice.Err? {
      return Err(());
    }
    var byReferrer := ReadGroups(referrers, fates.1);
    if byReferrer.Err? {
      return Err(());
    }
    var daily := ReadGroups(days, fates.2);
    if daily.Err? {
      return Err(());
    }
    r := Ok(Analytics(total, byDevice.value, byReferrer.value, daily.value));
  }
}
