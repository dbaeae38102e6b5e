/** The lunar mission aggregate of mysite/polls/models.py and the effects of the mission
    handlers of mysite/polls/views.py, as values.

    Shape: a mission is one record with a launch part and a landing part, each a date and a
    site, as the handlers use them (`mission.launch_details`, `mission.landing_details`). The
    handlers attach these parts with separate rows after the mission row, so a part can be
    missing from a mission that a failed request left behind. */
module Missions {
  import opened Common
  import Text

  type MissionId = nat

  /** Latitude and longitude in units of 10^-7 degree: a decimal with seven fractional digits,
      scaled to an integer. */
  datatype Coordinates = Coordinates(latitude: int, longitude: int)

  datatype Site = Site(name: string, coordinates: Coordinates)

  datatype CrewMember = CrewMember(name: string, role: string)

  /** A spacecraft and its crew, in the order the members were added. */
  datatype Spacecraft = Spacecraft(commandModule: string, lunarModule: string, crew: seq<CrewMember>)

  /** A launch or landing part: its date and its site. */
  datatype Details = Details(date: Date, site: Site)

  datatype Mission = Mission(name: string, spacecraft: Spacecraft, launch: Option<Details>, landing: Option<Details>)

  /** Both parts are attached. */
  predicate Complete(m: Mission)
  {
    m.launch.Some? && m.landing.Some?
  }

  /** Rows left in the store that no mission reaches: written by a request that failed before it
      attached them, or left by a mission's deletion. A site carries its own coordinates and a
      spacecraft its crew. */
  datatype Orphan = LooseCoordinates(coordinates: Coordinates) | LooseSite(site: Site) | LooseSpacecraft(spacecraft: Spacecraft)

  // ---------------------------------------------------------------------------------------
  // Requests

  datatype CrewInput = CrewInput(name: Option<string>, role: Option<string>)

  /** The `mission` object of a create or update request, leaf by leaf. `None` is a missing key
      (or a missing enclosing object) or a value that does not parse. */
  datatype MissionInput = MissionInput(
    name: Option<string>,
    launchDate: Option<Date>, launchSiteName: Option<string>,
    launchLatitude: Option<int>, launchLongitude: Option<int>,
    landingDate: Option<Date>, landingSiteName: Option<string>,
    landingLatitude: Option<int>, landingLongitude: Option<int>,
    commandModule: Option<string>, lunarModule: Option<string>,
    crew: Option<seq<CrewInput>>)

  /** The request leaf whose absence stopped a handler. */
  datatype Field =
    | LaunchLatitude | LaunchLongitude | LaunchSiteName
    | LandingLatitude | LandingLongitude | LandingSiteName
    | CommandModule | LunarModule | CrewList | CrewName(index: nat) | CrewRole(index: nat)
    | MissionName | LaunchDate | LandingDate

  predicate EntryComplete(c: CrewInput)
  {
    c.name.Some? && c.role.Some?
  }

  function MemberOf(c: CrewInput): CrewMember
    requires EntryComplete(c)
  {
    CrewMember(c.name.value, c.role.value)
  }

  /** The members the crew loop creates before it stops: one per entry, up to the first entry
      that lacks its name or its role. */
  function CrewPrefix(entries: seq<CrewInput>): (r: seq<CrewMember>)
    ensures |r| <= |entries|
    ensures forall k :: 0 <= k < |r| ==> EntryComplete(entries[k]) && r[k] == MemberOf(entries[k])
    ensures |r| < |entries| ==> !EntryComplete(entries[|r|])
  {
    if entries == [] || !EntryComplete(entries[0]) then []
    else [MemberOf(entries[0])] + CrewPrefix(entries[1..])
  }

  /** The key missing from the entry the crew loop stops at, if it stops early. */
  function CrewFailure(entries: seq<CrewInput>): Option<Field>
  {
    var n := |CrewPrefix(entries)|;
    if n == |entries| then None
    else if entries[n].name.None? then Some(CrewName(n))
    else Some(CrewRole(n))
  }

  /** Every leaf of the request is present and every crew entry has a name and a role. */
  predicate InputComplete(d: MissionInput)
  {
    && d.name.Some? && d.launchDate.Some? && d.launchSiteName.Some?
    && d.launchLatitude.Some? && d.launchLongitude.Some?
    && d.landingDate.Some? && d.landingSiteName.Some?
    && d.landingLatitude.Some? && d.landingLongitude.Some?
    && d.commandModule.Some? && d.lunarModule.Some? && d.crew.Some?
    && forall k :: 0 <= k < |d.crew.value| ==> EntryComplete(d.crew.value[k])
  }

  /** The crew entries that describe `crew`, member by member. */
  function CrewInputs(crew: seq<CrewMember>): seq<CrewInput>
  {
    seq(|crew|, k requires 0 <= k < |crew| => CrewInput(Some(crew[k].name), Some(crew[k].role)))
  }

  /** The request that describes a complete mission in full: what a client sends to create
      that mission, or to overwrite another mission with it. */
  function Describe(m: Mission): (d: MissionInput)
    requires Complete(m)
    ensures InputComplete(d)
  {
    var launch := m.launch.value;
    var landing := m.landing.value;
    MissionInput(
      Some(m.name),
      Some(launch.date), Some(launch.site.name),
      Some(launch.site.coordinates.latitude), Some(launch.site.coordinates.longitude),
      Some(landing.date), Some(landing.site.name),
      Some(landing.site.coordinates.latitude), Some(landing.site.coordinates.longitude),
      Some(m.spacecraft.commandModule), Some(m.spacecraft.lunarModule),
      Some(CrewInputs(m.spacecraft.crew)))
  }

  /** A request whose entries are all complete yields one member per entry, and describing
      those members gives the entries back. */
  lemma CrewPrefixOfCompleteEntries(entries: seq<CrewInput>)
    requires forall k :: 0 <= k < |entries| ==> EntryComplete(entries[k])
    ensures |CrewPrefix(entries)| == |entries|
    ensures CrewInputs(CrewPrefix(entries)) == entries
  {
  }

  /** Describing a crew and reading the description back gives the same crew. */
  lemma {:induction false} CrewPrefixOfDescribedCrew(crew: seq<CrewMember>)
    ensures CrewPrefix(CrewInputs(crew)) == crew
    decreases |crew|
  {
    if crew != [] {
      assert CrewInputs(crew)[1..] == CrewInputs(crew[1..]);
      CrewPrefixOfDescribedCrew(crew[1..]);
      assert [crew[0]] + crew[1..] == crew;
    }
  }

  // ---------------------------------------------------------------------------------------
  // Create (`lunar_missions` POST)

  /** What a create request leaves behind: rows no mission reaches, the mission row if one was
      written, and the missing field if the request failed. */
  datatype CreateEffect = CreateEffect(orphans: seq<Orphan>, mission: Option<Mission>, failure: Option<Field>)

  /** The rows `lunar_missions` POST writes, one after another, stopping at the first missing
      field and keeping what it already wrote: launch coordinates, launch site, landing
      coordinates, landing site, then the rest as `CreateFromSpacecraft`. */
  function CreateEffectOf(d: MissionInput): CreateEffect
  {
    if d.launchLatitude.None? then CreateEffect([], None, Some(LaunchLatitude))
    else if d.launchLongitude.None? then CreateEffect([], None, Some(LaunchLongitude))
    else
      var launchCoordinates := Coordinates(d.launchLatitude.value, d.launchLongitude.value);
      if d.launchSiteName.None? then CreateEffect([LooseCoordinates(launchCoordinates)], None, Some(LaunchSiteName))
      else
        var launchSite := Site(d.launchSiteName.value, launchCoordinates);
        if d.landingLatitude.None? then CreateEffect([LooseSite(launchSite)], None, Some(LandingLatitude))
        else if d.landingLongitude.None? then CreateEffect([LooseSite(launchSite)], None, Some(LandingLongitude))
        else
          var landingCoordinates := Coordinates(d.landingLatitude.value, d.landingLongitude.value);
          if d.landingSiteName.None? then
            CreateEffect([LooseSite(launchSite), LooseCoordinates(landingCoordinates)], None, Some(LandingSiteName))
          else CreateFromSpacecraft(d, launchSite, Site(d.landingSiteName.value, landingCoordinates))
  }

  /** The create steps after both sites are written: the spacecraft, each crew member, then the
      rest as `CreateFromMission`. */
  function CreateFromSpacecraft(d: MissionInput, launchSite: Site, landingSite: Site): CreateEffect
  {
    var sites := [LooseSite(launchSite), LooseSite(landingSite)];
    if d.commandModule.None? then CreateEffect(sites, None, Some(CommandModule))
    else if d.lunarModule.None? then CreateEffect(sites, None, Some(LunarModule))
    else if d.crew.None? then
      CreateEffect(sites + [LooseSpacecraft(Spacecraft(d.commandModule.value, d.lunarModule.value, []))], None, Some(CrewList))
    else
      var craft := Spacecraft(d.commandModule.value, d.lunarModule.value, CrewPrefix(d.crew.value));
      if CrewFailure(d.crew.value).Some? then CreateEffect(sites + [LooseSpacecraft(craft)], None, CrewFailure(d.crew.value))
      else CreateFromMission(d, launchSite, landingSite, craft)
  }

  /** The create steps after the spacecraft and its crew are written: the mission row, its launch
      part, its landing part. */
  function CreateFromMission(d: MissionInput, launchSite: Site, landingSite: Site, craft: Spacecraft): CreateEffect
  {
    if d.name.None? then CreateEffect([LooseSite(launchSite), LooseSite(landingSite), LooseSpacecraft(craft)], None, Some(MissionName))
    else if d.launchDate.None? then
      CreateEffect([LooseSite(launchSite), LooseSite(landingSite)], Some(Mission(d.name.value, craft, None, None)), Some(LaunchDate))
    else
      var launch := Details(d.launchDate.value, launchSite);
      if d.landingDate.None? then
        CreateEffect([LooseSite(landingSite)], Some(Mission(d.name.value, craft, Some(launch), None)), Some(LandingDate))
      else
        CreateEffect([], Some(Mission(d.name.value, craft, Some(launch), Some(Details(d.landingDate.value, landingSite)))), None)
  }

  /** A create request succeeds exactly when every leaf is present. */
  lemma CreateSucceedsIff(d: MissionInput)
    ensures CreateEffectOf(d).failure.None? <==> InputComplete(d)
  {
    if d.crew.Some? && InputComplete(d) {
      CrewPrefixOfCompleteEntries(d.crew.value);
    }
  }

  /** A successful create writes one complete mission, leaves no loose rows, and that mission
      is described by exactly the request: every name, coordinate, date and module, and the
      crew entry for entry in order. */
  lemma CreateStoresTheRequest(d: MissionInput)
    requires InputComplete(d)
    ensures var e := CreateEffectOf(d);
              && e.failure.None? && e.orphans == [] && e.mission.Some?
              && Complete(e.mission.value) && Describe(e.mission.value) == d
  {
    CrewPrefixOfCompleteEntries(d.crew.value);
  }

  /** Creating a mission from its own description stores that very mission. */
  lemma CreateFromDescription(m: Mission)
    requires Complete(m)
    ensures CreateEffectOf(Describe(m)) == CreateEffect([], Some(m), None)
  {
    CrewPrefixOfDescribedCrew(m.spacecraft.crew);
  }

  /** Every field up to the mission name is present. */
  predicate ReachesMissionRow(d: MissionInput)
  {
    && d.name.Some? && d.launchSiteName.Some?
    && d.launchLatitude.Some? && d.launchLongitude.Some?
    && d.landingSiteName.Some? && d.landingLatitude.Some? && d.landingLongitude.Some?
    && d.commandModule.Some? && d.lunarModule.Some? && d.crew.Some?
    && forall k :: 0 <= k < |d.crew.value| ==> EntryComplete(d.crew.value[k])
  }

  /** Create is not all-or-nothing. A failed request whose launch coordinates are present
      leaves rows behind; a mission row is written exactly when every field up to the mission
      name is present, and it then lacks its parts exactly when a date is missing. */
  lemma CreateKeepsEarlierWrites(d: MissionInput)
    ensures var e := CreateEffectOf(d);
              && (e.failure.Some? && d.launchLatitude.Some? && d.launchLongitude.Some? ==> e.orphans != [] || e.mission.Some?)
              && (e.mission.Some? <==> ReachesMissionRow(d))
              && (e.mission.Some? ==> (Complete(e.mission.value) <==> e.failure.None?))
              && (e.mission.Some? && e.failure.Some? ==> e.failure == Some(LaunchDate) || e.failure == Some(LandingDate))
  {
    if d.crew.Some? && forall k :: 0 <= k < |d.crew.value| ==> EntryComplete(d.crew.value[k]) {
      CrewPrefixOfCompleteEntries(d.crew.value);
    }
  }

  // ---------------------------------------------------------------------------------------
  // Update (`lunar_mission_detail` PATCH)

  /** `MissingField` is a missing leaf of the request; `MissingLaunchDetails` and
      `MissingLandingDetails` are the error of touching a part the mission does not have. */
  datatype PatchFailure = MissingField(field: Field) | MissingLaunchDetails | MissingLandingDetails

  datatype PatchEffect = PatchEffect(mission: Mission, failure: Option<PatchFailure>)

  // Each of these is one `save()` of one row of the aggregate.

  function WithLaunchCoordinates(m: Mission, c: Coordinates): Mission
    requires m.launch.Some?
  {
    var p := m.launch.value;
    m.(launch := Some(p.(site := p.site.(coordinates := c))))
  }

  function WithLaunchSiteName(m: Mission, name: string): Mission
    requires m.launch.Some?
  {
    var p := m.launch.value;
    m.(launch := Some(p.(site := p.site.(name := name))))
  }

  function WithLandingCoordinates(m: Mission, c: Coordinates): Mission
    requires m.landing.Some?
  {
    var p := m.landing.value;
    m.(landing := Some(p.(site := p.site.(coordinates := c))))
  }

  function WithLandingSiteName(m: Mission, name: string): Mission
    requires m.landing.Some?
  {
    var p := m.landing.value;
    m.(landing := Some(p.(site := p.site.(name := name))))
  }

  function WithLaunchDate(m: Mission, date: Date): Mission
    requires m.launch.Some?
  {
    m.(launch := Some(m.launch.value.(date := date)))
  }

  function WithLandingDate(m: Mission, date: Date): Mission
    requires m.landing.Some?
  {
    m.(landing := Some(m.landing.value.(date := date)))
  }

  function WithModules(m: Mission, commandModule: string, lunarModule: string): Mission
  {
    m.(spacecraft := m.spacecraft.(commandModule := commandModule, lunarModule := lunarModule))
  }

  function WithCrew(m: Mission, crew: seq<CrewMember>): Mission
  {
    m.(spacecraft := m.spacecraft.(crew := crew))
  }

  /** The saves `lunar_mission_detail` PATCH makes on mission `m`, in order, stopping at the
      first failure and keeping the saves already made: launch coordinates, launch site name,
      then the rest as `PatchFromLanding`. The request value of each assignment is read before
      the part it is assigned to, so a missing value is reported before a missing part. */
  function PatchEffectOf(m: Mission, d: MissionInput): PatchEffect
  {
    if d.launchLatitude.None? then PatchEffect(m, Some(MissingField(LaunchLatitude)))
    else if m.launch.None? then PatchEffect(m, Some(MissingLaunchDetails))
    else if d.launchLongitude.None? then PatchEffect(m, Some(MissingField(LaunchLongitude)))
    else
      var m1 := WithLaunchCoordinates(m, Coordinates(d.launchLatitude.value, d.launchLongitude.value));
      if d.launchSiteName.None? then PatchEffect(m1, Some(MissingField(LaunchSiteName)))
      else PatchFromLanding(WithLaunchSiteName(m1, d.launchSiteName.value), d)
  }

  /** The update saves after the launch site: landing coordinates, landing site name, then the
      rest as `PatchFromDates`. */
  function PatchFromLanding(m: Mission, d: MissionInput): PatchEffect
    requires m.launch.Some?
  {
    if d.landingLatitude.None? then PatchEffect(m, Some(MissingField(LandingLatitude)))
    else if m.landing.None? then PatchEffect(m, Some(MissingLandingDetails))
    else if d.landingLongitude.None? then PatchEffect(m, Some(MissingField(LandingLongitude)))
    else
      var m1 := WithLandingCoordinates(m, Coordinates(d.landingLatitude.value, d.landingLongitude.value));
      if d.landingSiteName.None? then PatchEffect(m1, Some(MissingField(LandingSiteName)))
      else PatchFromDates(WithLandingSiteName(m1, d.landingSiteName.value), d)
  }

  /** The update saves after the sites: launch date, landing date, then the rest as
      `PatchFromModules`. */
  function PatchFromDates(m: Mission, d: MissionInput): PatchEffect
    requires Complete(m)
  {
    if d.launchDate.None? then PatchEffect(m, Some(MissingField(LaunchDate)))
    else
      var m1 := WithLaunchDate(m, d.launchDate.value);
      if d.landingDate.None? then PatchEffect(m1, Some(MissingField(LandingDate)))
      else PatchFromModules(WithLandingDate(m1, d.landingDate.value), d)
  }

  /** The update saves after the dates: both module names in one save, then the rest as
      `PatchFromCrew`. */
  function PatchFromModules(m: Mission, d: MissionInput): PatchEffect
  {
    if d.commandModule.None? then PatchEffect(m, Some(MissingField(CommandModule)))
    else if d.lunarModule.None? then PatchEffect(m, Some(MissingField(LunarModule)))
    else PatchFromCrew(WithModules(m, d.commandModule.value, d.lunarModule.value), d)
  }

  /** The last update saves: the crew is emptied and refilled entry by entry, then the mission
      name. */
  function PatchFromCrew(m: Mission, d: MissionInput): PatchEffect
  {
    if d.crew.None? then PatchEffect(WithCrew(m, []), Some(MissingField(CrewList)))
    else
      var m1 := WithCrew(m, CrewPrefix(d.crew.value));
      if CrewFailure(d.crew.value).Some? then PatchEffect(m1, Some(MissingField(CrewFailure(d.crew.value).value)))
      else if d.name.None? then PatchEffect(m1, Some(MissingField(MissionName)))
      else PatchEffect(m1.(name := d.name.value), None)
  }

  /** An update never attaches or removes a launch or landing part. */
  lemma PatchKeepsParts(m: Mission, d: MissionInput)
    ensures PatchEffectOf(m, d).mission.launch.Some? == m.launch.Some?
    ensures PatchEffectOf(m, d).mission.landing.Some? == m.landing.Some?
  {
  }

  /** An update succeeds exactly when every leaf of the request is present and the mission has
      both parts. */
  lemma PatchSucceedsIff(m: Mission, d: MissionInput)
    ensures PatchEffectOf(m, d).failure.None? <==> InputComplete(d) && Complete(m)
  {
    if d.crew.Some? && InputComplete(d) {
      CrewPrefixOfCompleteEntries(d.crew.value);
    }
  }

  /** A successful update overwrites everything: the mission afterwards is the one a create
      with the same request would store, so its description is exactly the request. In
      particular its crew is exactly the request's crew, in order: the old members are
      removed, not merged. */
  lemma PatchReplacesEverything(m: Mission, d: MissionInput)
    requires PatchEffectOf(m, d).failure.None?
    ensures InputComplete(d)
    ensures Some(PatchEffectOf(m, d).mission) == CreateEffectOf(d).mission
    ensures Complete(PatchEffectOf(m, d).mission) && Describe(PatchEffectOf(m, d).mission) == d
    ensures PatchEffectOf(m, d).mission.spacecraft.crew == CrewPrefix(d.crew.value)
  {
    PatchSucceedsIff(m, d);
    CreateStoresTheRequest(d);
  }

  /** Applying the same successful update twice is the same as applying it once. */
  lemma PatchIdempotent(m: Mission, d: MissionInput)
    requires PatchEffectOf(m, d).failure.None?
    ensures PatchEffectOf(PatchEffectOf(m, d).mission, d) == PatchEffectOf(m, d)
  {
    PatchSucceedsIff(m, d);
  }

  /** Update is not all-or-nothing: a request lacking only the mission name fails, yet every
      other save has been made; the mission is what the request would have produced with the
      old name kept. */
  lemma PatchKeepsEarlierSaves(m: Mission, d: MissionInput)
    requires Complete(m) && d.name.None? && InputComplete(d.(name := Some(m.name)))
    ensures PatchEffectOf(m, d).failure == Some(MissingField(MissionName))
    ensures PatchEffectOf(m, d).mission == PatchEffectOf(m, d.(name := Some(m.name))).mission
  {
    CrewPrefixOfCompleteEntries(d.crew.value);
  }

  /** An update whose request lacks the crew list fails after the crew was emptied, and the
      mission keeps the empty crew. */
  lemma PatchWithoutCrewListLeavesNoCrew(m: Mission, d: MissionInput)
    requires Complete(m)
    requires d.crew.None?
    requires InputComplete(d.(crew := Some([])))
    ensures PatchEffectOf(m, d).failure == Some(MissingField(CrewList))
    ensures PatchEffectOf(m, d).mission.spacecraft.crew == []
  {
  }

  // ---------------------------------------------------------------------------------------
  // Delete (`lunar_mission_detail` DELETE)

  /** The rows a deleted mission leaves: its spacecraft with the crew, and the sites of the parts
      it had. Deleting the mission row removes only what points at it (its parts), not what it
      points at. */
  function Remnants(m: Mission): seq<Orphan>
  {
    [LooseSpacecraft(m.spacecraft)]
    + (if m.launch.Some? then [LooseSite(m.launch.value.site)] else [])
    + (if m.landing.Some? then [LooseSite(m.landing.value.site)] else [])
  }

  predicate Increasing(ids: seq<MissionId>)
  {
    forall i, j :: 0 <= i < j < |ids| ==> ids[i] < ids[j]
  }

  /** Putting the head of an increasing sequence before an increasing selection from its tail
      keeps it increasing. */
  lemma IncreasingCons(ids: seq<MissionId>, rest: seq<MissionId>)
    requires ids != []
    requires forall x :: x in rest ==> x in ids[1..]
    requires Increasing(ids[1..]) ==> Increasing(rest)
    ensures Increasing(ids) ==> Increasing([ids[0]] + rest)
  {
    if Increasing(ids) {
      TailMembers(ids);
      var r := [ids[0]] + rest;
      forall i, j | 0 <= i < j < |r| ensures r[i] < r[j] {
        if i == 0 {
          assert r[j] == rest[j - 1] && rest[j - 1] in ids[1..];
        } else {
          assert r[i] == rest[i - 1] && r[j] == rest[j - 1];
        }
      }
    }
  }

  /** `ids` without `id`, order kept. */
  function Without(ids: seq<MissionId>, id: MissionId): (r: seq<MissionId>)
    ensures |r| <= |ids|
    ensures forall x :: x in r <==> x in ids && x != id
    ensures Increasing(ids) ==> Increasing(r)
  {
    if ids == [] then []
    else
      var rest := Without(ids[1..], id);
      assert forall x :: x in ids[1..] ==> x in ids;
      if ids[0] == id then rest
      else
        IncreasingCons(ids, rest);
        [ids[0]] + rest
  }

  // ---------------------------------------------------------------------------------------
  // List (`lunar_missions` GET) and search (`search`)

  /** One entry of the mission list. */
  datatype MissionView = MissionView(
    name: string, launchDate: Date, launchSite: Site, landingDate: Date, landingSite: Site,
    commandModule: string, lunarModule: string, crew: seq<CrewMember>)

  function View(m: Mission): MissionView
    requires Complete(m)
  {
    MissionView(m.name, m.launch.value.date, m.launch.value.site, m.landing.value.date, m.landing.value.site,
                m.spacecraft.commandModule, m.spacecraft.lunarModule, m.spacecraft.crew)
  }

  /** One entry of the search result. */
  datatype SearchItem = SearchItem(name: string, launchDate: Date, landingDate: Date,
                                   crew: seq<CrewMember>, landingSite: string)

  function Item(m: Mission): SearchItem
    requires Complete(m)
  {
    SearchItem(m.name, m.launch.value.date, m.landing.value.date, m.spacecraft.crew, m.landing.value.site.name)
  }

  /** `name__icontains`: the name contains the query, ignoring the case of ASCII letters. */
  predicate NameMatches(m: Mission, query: string)
  {
    Text.ContainsIgnoringCase(m.name, query)
  }

  /** The ids among `ids` of the missions whose name matches `query`, order kept. */
  function Matching(missions: map<MissionId, Mission>, ids: seq<MissionId>, query: string): (r: seq<MissionId>)
    requires forall k :: 0 <= k < |ids| ==> ids[k] in missions
    ensures |r| <= |ids|
    ensures forall id :: id in r <==> id in ids && id in missions && NameMatches(missions[id], query)
    ensures Increasing(ids) ==> Increasing(r)
  {
    if ids == [] then []
    else
      var rest := Matching(missions, ids[1..], query);
      assert forall x :: x in ids[1..] ==> x in ids;
      if !NameMatches(missions[ids[0]], query) then rest
      else
        IncreasingCons(ids, rest);
        [ids[0]] + rest
  }

  /** The head of an increasing sequence is its least element. */
  lemma HeadIsLeast(a: seq<MissionId>, x: MissionId)
    requires Increasing(a) && x in a
    ensures a[0] <= x
  {
    var i :| 0 <= i < |a| && a[i] == x;
    if i > 0 {
      assert a[0] < a[i];
    }
  }

  /** The tail of an increasing sequence holds all its elements but the head. */
  lemma TailMembers(a: seq<MissionId>)
    requires Increasing(a) && a != []
    ensures Increasing(a[1..])
    ensures forall x :: x in a[1..] <==> x in a && x != a[0]
  {
    forall x ensures x in a[1..] <==> x in a && x != a[0] {
      if x in a[1..] {
        var i :| 0 <= i < |a[1..]| && a[1..][i] == x;
        assert a[i + 1] == x && a[0] < a[i + 1];
      }
      if x in a && x != a[0] {
        var i :| 0 <= i < |a| && a[i] == x;
        assert 0 < i && a[1..][i - 1] == x;
      }
    }
  }

  /** Two increasing sequences with the same elements are equal: once the matching missions are
      known, store order fixes the search result. */
  lemma {:induction false} IncreasingDeterminedByElements(a: seq<MissionId>, b: seq<MissionId>)
    requires Increasing(a) && Increasing(b)
    requires forall x :: x in a <==> x in b
    ensures a == b
    decreases |a|
  {
    assert |a| > 0 ==> a[0] in b;
    assert |b| > 0 ==> b[0] in a;
    if a != [] && b != [] {
      HeadIsLeast(a, b[0]);
      HeadIsLeast(b, a[0]);
      TailMembers(a);
      TailMembers(b);
      IncreasingDeterminedByElements(a[1..], b[1..]);
      assert a == [a[0]] + a[1..] && b == [b[0]] + b[1..];
    }
  }

  /** The search selection is the only increasing sequence of ids holding exactly the stored
      missions whose name matches: the matching missions, each once, in store order. */
  lemma MatchingIsTheOrderedMatches(missions: map<MissionId, Mission>, ids: seq<MissionId>, query: string, s: seq<MissionId>)
    requires forall k :: 0 <= k < |ids| ==> ids[k] in missions
    requires Increasing(ids) && Increasing(s)
    requires forall id :: id in s <==> id in ids && NameMatches(missions[id], query)
    ensures s == Matching(missions, ids, query)
  {
    IncreasingDeterminedByElements(s, Matching(missions, ids, query));
  }
}
