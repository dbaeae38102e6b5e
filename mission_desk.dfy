/** The mission store behind `lunar_missions` and `lunar_mission_detail` of mysite/polls/views.py,
    and `search`. Each method performs the handler's writes one at a time, so a request that fails
    part-way leaves in the store what it had already written. */
module MissionDesk {
  import opened Common
  import opened Missions

  /** `NotFound` for an id with no mission; `Rejected` for a request that failed part-way. */
  datatype DetailError = NotFound | Rejected(failure: PatchFailure)

  /** Appending an id above every stored one keeps the store order increasing. */
  lemma AppendKeepsIncreasing(order: seq<MissionId>, id: MissionId)
    requires Increasing(order)
    requires forall x :: x in order ==> x < id
    ensures Increasing(order + [id])
  {
    forall i, j | 0 <= i < j < |order + [id]| ensures (order + [id])[i] < (order + [id])[j] {
      if j == |order| {
        assert order[i] in order;
      }
    }
  }

  class MissionStore {
    /** The stored missions by id. */
    var missions: map<MissionId, Mission>
    /** The ids in the order the missions were created: the order of `LunarMission.objects.all()`. */
    var order: seq<MissionId>
    /** The id the next created mission receives; ids are never reused. */
    var nextId: MissionId
    /** Rows no mission reaches, oldest first. */
    var orphans: seq<Orphan>

    ghost predicate Valid()
      reads this
    {
      && Increasing(order)
      && (forall id :: id in missions <==> id in order)
      && (forall id :: id in missions ==> id < nextId)
    }

    /** The store changed from the old state as create effect `e` says, and `r` reports it. */
    twostate predicate CreateApplied(e: CreateEffect, new r: Result<MissionId, Field>)
      reads this
    {
      && orphans == old(orphans) + e.orphans
      && (r.Ok? <==> e.failure.None?)
      && (r.Err? ==> e.failure == Some(r.error))
      && (e.mission.Some? ==>
            && missions == old(missions)[old(nextId) := e.mission.value]
            && order == old(order) + [old(nextId)] && nextId == old(nextId) + 1)
      && (e.mission.None? ==> missions == old(missions) && order == old(order) && nextId == old(nextId))
      && (r.Ok? ==> r.value == old(nextId))
    }

    /** Mission `id` changed from the old state as update effect `e` says, nothing else changed,
        and `r` reports it. */
    twostate predicate PatchApplied(id: MissionId, e: PatchEffect, new r: Outcome<DetailError>)
      reads this
    {
      && missions == old(missions)[id := e.mission]
      && order == old(order) && nextId == old(nextId) && orphans == old(orphans)
      && (r.Pass? <==> e.failure.None?)
      && (r.Fail? ==> r.error == Rejected(e.failure.value))
    }

    constructor()
      ensures Valid()
      ensures missions == map[] && order == [] && orphans == [] && nextId == 1
    {
      missions := map[];
      order := [];
      nextId := 1;
      orphans := [];
    }

    /** `lunar_missions` POST: writes the coordinates, the sites, the spacecraft, each crew member,
        the mission row and its two parts, in that order, and stops at the first missing field.
        The rows written before that stay: a mission row, if it was reached, and the rows no
        mission reaches go to `orphans`. */
    method Create(d: MissionInput) returns (r: Result<MissionId, Field>)
      requires Valid()
      modifies this
      ensures Valid()
      ensures CreateApplied(CreateEffectOf(d), r)
    {
      r := WriteSites(d);
      if CreateEffectOf(d).mission.Some? {
        AppendKeepsIncreasing(old(order), old(nextId));
      }
    }

    /** The create steps up to both sites: the launch coordinates and site, then the landing
        coordinates and site. */
    method WriteSites(d: MissionInput) returns (r: Result<MissionId, Field>)
      modifies this
      ensures CreateApplied(CreateEffectOf(d), r)
    {
      if d.launchLatitude.None? { return Err(LaunchLatitude); }
      if d.launchLongitude.None? { return Err(LaunchLongitude); }
      var launchCoordinates := Coordinates(d.launchLatitude.value, d.launchLongitude.value);
      if d.launchSiteName.None? {
        orphans := orphans + [LooseCoordinates(launchCoordinates)];
        return Err(LaunchSiteName);
      }
      var launchSite := Site(d.launchSiteName.value, launchCoordinates);
      if d.landingLatitude.None? {
        orphans := orphans + [LooseSite(launchSite)];
        return Err(LandingLatitude);
      }
      if d.landingLongitude.None? {
        orphans := orphans + [LooseSite(launchSite)];
        return Err(LandingLongitude);
      }
      var landingCoordinates := Coordinates(d.landingLatitude.value, d.landingLongitude.value);
      if d.landingSiteName.None? {
        orphans := orphans + [LooseSite(launchSite), LooseCoordinates(landingCoordinates)];
        return Err(LandingSiteName);
      }
      r := WriteSpacecraft(d, launchSite, Site(d.landingSiteName.value, landingCoordinates));
    }

    /** The create steps after both sites: the spacecraft, then each crew member in turn. */
    method WriteSpacecraft(d: MissionInput, launchSite: Site, landingSite: Site) returns (r: Result<MissionId, Field>)
      modifies this
      ensures CreateApplied(CreateFromSpacecraft(d, launchSite, landingSite), r)
    {
      var sites := [LooseSite(launchSite), LooseSite(landingSite)];
      if d.commandModule.None? {
        orphans := orphans + sites;
        return Err(CommandModule);
      }
      if d.lunarModule.None? {
        orphans := orphans + sites;
        return Err(LunarModule);
      }
      var craft := Spacecraft(d.commandModule.value, d.lunarModule.value, []);
      if d.crew.None? {
        orphans := orphans + sites + [LooseSpacecraft(craft)];
        return Err(CrewList);
      }
      var entries := d.crew.value;
      var i := 0;
      while i < |entries|
        invariant i <= |CrewPrefix(entries)|
        invariant craft == Spacecraft(d.commandModule.value, d.lunarModule.value, CrewPrefix(entries)[..i])
        invariant unchanged(this)
      {
        if entries[i].name.None? {
          assert |CrewPrefix(entries)| == i && CrewPrefix(entries)[..i] == CrewPrefix(entries);
          orphans := orphans + sites + [LooseSpacecraft(craft)];
          return Err(CrewName(i));
        }
        if entries[i].role.None? {
          assert |CrewPrefix(entries)| == i && CrewPrefix(entries)[..i] == CrewPrefix(entries);
          orphans := orphans + sites + [LooseSpacecraft(craft)];
          return Err(CrewRole(i));
        }
        craft := craft.(crew := craft.crew + [CrewMember(entries[i].name.value, entries[i].role.value)]);
        i := i + 1;
      }
      assert CrewPrefix(entries)[..i] == CrewPrefix(entries);
      r := WriteMission(d, launchSite, landingSite, craft);
    }

    /** The create steps after the spacecraft: the mission row, its launch part, its landing part. */
    method WriteMission(d: MissionInput, launchSite: Site, landingSite: Site, craft: Spacecraft) returns (r: Result<MissionId, Field>)
      modifies this
      ensures CreateApplied(CreateFromMission(d, launchSite, landingSite, craft), r)
    {
      if d.name.None? {
        orphans := orphans + [LooseSite(launchSite), LooseSite(landingSite), LooseSpacecraft(craft)];
        return Err(MissionName);
      }
      var id := nextId;
      missions := missions[id := Mission(d.name.value, craft, None, None)];
      order := order + [id];
      nextId := nextId + 1;
      if d.launchDate.None? {
        orphans := orphans + [LooseSite(launchSite), LooseSite(landingSite)];
        return Err(LaunchDate);
      }
      missions := missions[id := missions[id].(launch := Some(Details(d.launchDate.value, launchSite)))];
      if d.landingDate.None? {
        orphans := orphans + [LooseSite(landingSite)];
        return Err(LandingDate);
      }
      missions := missions[id := missions[id].(landing := Some(Details(d.landingDate.value, landingSite)))];
      return Ok(id);
    }

    /** `lunar_missions` GET: every mission in store order, or the first mission lacking a part,
        on which the handler fails. */
    method List() returns (r: Result<seq<MissionView>, MissionId>)
      requires Valid()
      ensures r.Ok? <==> forall id :: id in missions ==> Complete(missions[id])
      ensures r.Ok? ==>
                && |r.value| == |order|
                && forall k :: 0 <= k < |order| ==> Complete(missions[order[k]]) && r.value[k] == View(missions[order[k]])
      ensures r.Err? ==>
                exists k :: && 0 <= k < |order| && order[k] == r.error && !Complete(missions[order[k]])
                            && forall j :: 0 <= j < k ==> Complete(missions[order[j]])
    {
      var data: seq<MissionView> := [];
      var k := 0;
      while k < |order|
        invariant 0 <= k <= |order| && |data| == k
        invariant forall j :: 0 <= j < k ==> Complete(missions[order[j]]) && data[j] == View(missions[order[j]])
      {
        var m := missions[order[k]];
        if !Complete(m) {
          return Err(order[k]);
        }
        data := data + [View(m)];
        k := k + 1;
      }
      forall id | id in missions ensures Complete(missions[id]) {
        var j :| 0 <= j < |order| && order[j] == id;
      }
      return Ok(data);
    }

    /** `lunar_mission_detail` PATCH: the saves of `PatchEffectOf`, made one at a time on the
        stored mission. An unknown id is answered `NotFound` and changes nothing. */
    method Patch(id: MissionId, d: MissionInput) returns (r: Outcome<DetailError>)
      requires Valid()
      modifies this
      ensures Valid()
      ensures id !in old(missions) ==> r == Fail(NotFound) && unchanged(this)
      ensures id in old(missions) ==> PatchApplied(id, PatchEffectOf(old(missions)[id], d), r)
    {
      if id !in missions {
        return Fail(NotFound);
      }
      r := SaveLaunchSite(id, d);
    }

    /** The first update saves: the launch coordinates, then the launch site name. The launch
        part is touched after the first request value is read. */
    method SaveLaunchSite(id: MissionId, d: MissionInput) returns (r: Outcome<DetailError>)
      requires id in missions
      modifies this
      ensures PatchApplied(id, PatchEffectOf(old(missions)[id], d), r)
    {
      var m := missions[id];
      if d.launchLatitude.None? { return Fail(Rejected(MissingField(LaunchLatitude))); }
      if m.launch.None? { return Fail(Rejected(MissingLaunchDetails)); }
      if d.launchLongitude.None? { return Fail(Rejected(MissingField(LaunchLongitude))); }
      m := WithLaunchCoordinates(m, Coordinates(d.launchLatitude.value, d.launchLongitude.value));
      missions := missions[id := m];
      if d.launchSiteName.None? { return Fail(Rejected(MissingField(LaunchSiteName))); }
      m := WithLaunchSiteName(m, d.launchSiteName.value);
      missions := missions[id := m];
      r := SaveLandingSite(id, d);
    }

    /** The update saves after the launch site: the landing coordinates, then the landing site
        name. */
    method SaveLandingSite(id: MissionId, d: MissionInput) returns (r: Outcome<DetailError>)
      requires id in missions && missions[id].launch.Some?
      modifies this
      ensures PatchApplied(id, PatchFromLanding(old(missions)[id], d), r)
    {
      var m := missions[id];
      if d.landingLatitude.None? { return Fail(Rejected(MissingField(LandingLatitude))); }
      if m.landing.None? { return Fail(Rejected(MissingLandingDetails)); }
      if d.landingLongitude.None? { return Fail(Rejected(MissingField(LandingLongitude))); }
      m := WithLandingCoordinates(m, Coordinates(d.landingLatitude.value, d.landingLongitude.value));
      missions := missions[id := m];
      if d.landingSiteName.None? { return Fail(Rejected(MissingField(LandingSiteName))); }
      m := WithLandingSiteName(m, d.landingSiteName.value);
      missions := missions[id := m];
      r := SaveDates(id, d);
    }

    /** The update saves after the sites: the launch date, then the landing date. */
    method SaveDates(id: MissionId, d: MissionInput) returns (r: Outcome<DetailError>)
      requires id in missions && Complete(missions[id])
      modifies this
      ensures PatchApplied(id, PatchFromDates(old(missions)[id], d), r)
    {
      var m := missions[id];
      if d.launchDate.None? { return Fail(Rejected(MissingField(LaunchDate))); }
      m := WithLaunchDate(m, d.launchDate.value);
      missions := missions[id := m];
      if d.landingDate.None? { return Fail(Rejected(MissingField(LandingDate))); }
      m := WithLandingDate(m, d.landingDate.value);
      missions := missions[id := m];
      r := SaveModules(id, d);
    }

    /** The update save after the dates: both module names of the spacecraft together. */
    method SaveModules(id: MissionId, d: MissionInput) returns (r: Outcome<DetailError>)
      requires id in missions
      modifies this
      ensures PatchApplied(id, PatchFromModules(old(missions)[id], d), r)
    {
      if d.commandModule.None? { return Fail(Rejected(MissingField(CommandModule))); }
      if d.lunarModule.None? { return Fail(Rejected(MissingField(LunarModule))); }
      var m := WithModules(missions[id], d.commandModule.value, d.lunarModule.value);
      missions := missions[id := m];
      r := SaveCrew(id, d);
    }

    /** The last update saves: the crew is emptied, refilled one member at a time, then the name. */
    method SaveCrew(id: MissionId, d: MissionInput) returns (r: Outcome<DetailError>)
      requires id in missions
      modifies this
      ensures PatchApplied(id, PatchFromCrew(old(missions)[id], d), r)
    {
      var start := missions[id];
      var m := WithCrew(start, []);
      missions := missions[id := m];
      if d.crew.None? { return Fail(Rejected(MissingField(CrewList))); }
      var entries := d.crew.value;
      var i := 0;
      while i < |entries|
        invariant i <= |CrewPrefix(entries)|
        invariant m == WithCrew(start, CrewPrefix(entries)[..i])
        invariant missions == old(missions)[id := m]
        invariant order == old(order) && nextId == old(nextId) && orphans == old(orphans)
      {
        if !EntryComplete(entries[i]) {
          assert |CrewPrefix(entries)| == i && CrewPrefix(entries)[..i] == CrewPrefix(entries);
          if entries[i].name.None? { return Fail(Rejected(MissingField(CrewName(i)))); }
          return Fail(Rejected(MissingField(CrewRole(i))));
        }
        m := WithCrew(m, m.spacecraft.crew + [CrewMember(entries[i].name.value, entries[i].role.value)]);
        missions := missions[id := m];
        i := i + 1;
      }
      assert CrewPrefix(entries)[..i] == CrewPrefix(entries);
      if d.name.None? { return Fail(Rejected(MissingField(MissionName))); }
      m := m.(name := d.name.value);
      missions := missions[id := m];
      return Pass;
    }

    /** `lunar_mission_detail` DELETE: removes the mission; its spacecraft and sites stay, as
        orphans. An unknown id is answered `NotFound` and changes nothing. */
    method Delete(id: MissionId) returns (r: Outcome<DetailError>)
      requires Valid()
      modifies this
      ensures Valid()
      ensures nextId == old(nextId)
      ensures id !in old(missions) ==>
                r == Fail(NotFound) && missions == old(missions) && order == old(order) && orphans == old(orphans)
      ensures id in old(missions) ==>
                && r == Pass
                && missions == old(missions) - {id}
                && order == Without(old(order), id)
                && orphans == old(orphans) + Remnants(old(missions)[id])
    {
      if id !in missions {
        return Fail(NotFound);
      }
      orphans := orphans + Remnants(missions[id]);
      missions := missions - {id};
      order := Without(order, id);
      return Pass;
    }

    /** `search`: an absent or empty query gives no missions; otherwise the missions whose name
        contains the query ignoring case, in store order, or the first of them lacking a part. */
    method Search(query: Option<string>) returns (r: Result<seq<SearchItem>, MissionId>)
      requires Valid()
      ensures query.None? || query == Some("") ==> r == Ok([])
      ensures query.Some? && query.value != "" ==>
                var ids := Matching(missions, order, query.value);
                && (r.Ok? <==> forall k :: 0 <= k < |ids| ==> Complete(missions[ids[k]]))
                && (r.Ok? ==>
                      && |r.value| == |ids|
                      && forall k :: 0 <= k < |ids| ==> Complete(missions[ids[k]]) && r.value[k] == Item(missions[ids[k]]))
                && (r.Err? ==>
                      exists k :: && 0 <= k < |ids| && ids[k] == r.error && !Complete(missions[ids[k]])
                                  && forall j :: 0 <= j < k ==> Complete(missions[ids[j]]))
    {
      if query.None? || query.value == "" {
        return Ok([]);
      }
      var ids := Matching(missions, order, query.value);
      var data: seq<SearchItem> := [];
      var k := 0;
      while k < |ids|
        invariant 0 <= k <= |ids| && |data| == k
        invariant forall j :: 0 <= j < k ==> Complete(missions[ids[j]]) && data[j] == Item(missions[ids[j]])
      {
        var m := missions[ids[k]];
        if !Complete(m) {
          assert !(forall j :: 0 <= j < |ids| ==> Complete(missions[ids[j]]));
          assert ids == Matching(missions, order, query.value);
          return Err(ids[k]);
        }
        data := data + [Item(m)];
        k := k + 1;
      }
      return Ok(data);
    }
  }
}
