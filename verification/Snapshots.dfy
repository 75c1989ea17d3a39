/**
 The in-memory configuration snapshot and the reload that builds it: one query
 per table, each grouped by project into a map under construction.
 */
module Snapshots {
  import opened Prelude
  import opened Selection

  // ----- the snapshot -------------------------------------------------------

  datatype Site = Site(id: int, url: string, aliases: seq<string>)
  datatype Zone = Zone(id: int, siteId: int)

  /** `stored` stands for the columns that are carried through untouched. */
  datatype Creative = Creative(id: int, kind: string, stored: string, templateName: Option<string>,
                               templateSource: Option<string>, clickThroughUrl: Option<string>)

  /** Project ids, like every string that is signed, are UTF-8 bytes. */
  type Pid = seq<byte>

  datatype Project = Project(id: Pid, orgId: string, flights: seq<Flight>, ads: seq<Ad>, sites: seq<Site>,
                             zones: seq<Zone>, clickThroughUrls: map<int, string>, creatives: map<int, Creative>,
                             secret: seq<byte>, previousSecret: Option<seq<byte>>, allowForce: bool)

  datatype Snapshot = Snapshot(configVersion: int, projects: map<Pid, Project>)

  const EMPTY := Snapshot(0, map[])

  // ----- the database it is read from ---------------------------------------

  datatype ProjectRow = ProjectRow(id: Pid, orgId: string, secret: seq<byte>, allowForce: bool, isActive: bool)
  datatype FlightRow = FlightRow(projectId: Pid, id: int, campaignId: int, priorityId: int,
                                 startSecs: Option<int>, endSecs: Option<int>,
                                 siteIds: seq<int>, zoneIds: seq<int>, adTypes: seq<int>, isActive: bool)
  datatype CreativeRow = CreativeRow(projectId: Pid, id: int, kind: string, stored: string,
                                     templateId: Option<int>, clickThroughUrl: Option<string>)
  datatype Template = Template(projectId: Pid, name: string, source: Option<string>)

  /** A row together with the project it belongs to. */
  datatype Tagged<T> = Tagged(projectId: Pid, row: T)

  /** `tiers` and `advertisers` are priorities and campaigns by primary key, each of some project. */
  datatype Database = Database(projects: seq<ProjectRow>, flights: seq<FlightRow>, tiers: map<int, Tagged<i32>>,
                               advertisers: map<int, Tagged<int>>, ads: seq<Tagged<Ad>>, sites: seq<Tagged<Site>>,
                               zones: seq<Tagged<Zone>>, creatives: seq<CreativeRow>, templates: map<int, Template>)

  function ToMillis(secs: Option<int>): Option<int> {
    match secs case None => None case Some(s) => Some(s * 1000)
  }

  function ActiveProjects(rows: seq<ProjectRow>): seq<ProjectRow> {
    if rows == [] then []
    else ActiveProjects(rows[..|rows| - 1]) + if rows[|rows| - 1].isActive then [rows[|rows| - 1]] else []
  }

  /** Flights joined with their priority and campaign, of whatever project; unmatched rows drop out. */
  function FlightRows(rows: seq<FlightRow>, tiers: map<int, Tagged<i32>>, advertisers: map<int, Tagged<int>>)
    : seq<Tagged<Flight>>
  {
    if rows == [] then []
    else
      var f := rows[|rows| - 1];
      FlightRows(rows[..|rows| - 1], tiers, advertisers) +
      if f.priorityId in tiers && f.campaignId in advertisers
      then [Tagged(f.projectId, Flight(f.id, f.campaignId, advertisers[f.campaignId].row, tiers[f.priorityId].row,
                                       ToMillis(f.startSecs), ToMillis(f.endSecs), f.siteIds, f.zoneIds, f.adTypes,
                                       f.isActive))]
      else []
  }

  function FindCreative(rows: seq<CreativeRow>, id: Option<int>): Option<CreativeRow> {
    if rows == [] then None
    else if id == Some(rows[0].id) then Some(rows[0])
    else FindCreative(rows[1..], id)
  }

  /** Ads joined with their creative, of whatever project, where that has a click-through URL. */
  function ClickRows(ads: seq<Tagged<Ad>>, creatives: seq<CreativeRow>): seq<Tagged<(int, string)>> {
    if ads == [] then []
    else
      var a := ads[|ads| - 1];
      var c := FindCreative(creatives, a.row.creativeId);
      ClickRows(ads[..|ads| - 1], creatives) +
      if c.Some? && c.value.clickThroughUrl.Some?
      then [Tagged(a.projectId, (a.row.id, c.value.clickThroughUrl.value))] else []
  }

  /** A creative left-joined with its template, only if that is the same project's. */
  function Joined(c: CreativeRow, templates: map<int, Template>): Creative {
    var own := c.templateId.Some? && c.templateId.value in templates
               && templates[c.templateId.value].projectId == c.projectId;
    Creative(c.id, c.kind, c.stored,
             if own then Some(templates[c.templateId.value].name) else None,
             if own then templates[c.templateId.value].source else None,
             c.clickThroughUrl)
  }

  function CreativeRows(rows: seq<CreativeRow>, templates: map<int, Template>): seq<Tagged<Creative>> {
    seq(|rows|, i requires 0 <= i < |rows| => Tagged(rows[i].projectId, Joined(rows[i], templates)))
  }

  // ----- grouping by project ------------------------------------------------

  /** The rows of one project, in query order. */
  function Group<T>(rows: seq<Tagged<T>>, pid: Pid): seq<T> {
    if rows == [] then []
    else Group(rows[..|rows| - 1], pid) + if rows[|rows| - 1].projectId == pid then [rows[|rows| - 1].row] else []
  }

  /** One project's click targets; a later row for the same ad wins. */
  function ClickMap(rows: seq<(int, string)>): map<int, string> {
    if rows == [] then map[] else ClickMap(rows[..|rows| - 1])[rows[|rows| - 1].0 := rows[|rows| - 1].1]
  }

  function CreativeMap(rows: seq<Creative>): map<int, Creative> {
    if rows == [] then map[] else CreativeMap(rows[..|rows| - 1])[rows[|rows| - 1].id := rows[|rows| - 1]]
  }

  /** A project as seeded from its own row, before any other table is read. */
  function Seeded(r: ProjectRow): Project {
    Project(r.id, r.orgId, [], [], [], [], map[], map[], r.secret, None, r.allowForce)
  }

  function SeedAll(rows: seq<ProjectRow>): map<Pid, Project> {
    if rows == [] then map[] else SeedAll(rows[..|rows| - 1])[rows[|rows| - 1].id := Seeded(rows[|rows| - 1])]
  }

  /** The finished map: each active project with its own rows of every table. */
  function Assemble(projects: seq<ProjectRow>, flights: seq<Tagged<Flight>>, ads: seq<Tagged<Ad>>,
                    sites: seq<Tagged<Site>>, zones: seq<Tagged<Zone>>, clicks: seq<Tagged<(int, string)>>,
                    creatives: seq<Tagged<Creative>>): map<Pid, Project>
  {
    var seeds := SeedAll(projects);
    map pid | pid in seeds ::
      seeds[pid].(flights := Group(flights, pid), ads := Group(ads, pid), sites := Group(sites, pid),
                  zones := Group(zones, pid), clickThroughUrls := ClickMap(Group(clicks, pid)),
                  creatives := CreativeMap(Group(creatives, pid)))
  }

  lemma GroupStep<T>(rows: seq<Tagged<T>>, i: nat, pid: Pid)
    requires i < |rows|
    ensures Group(rows[..i + 1], pid)
         == if rows[i].projectId == pid then Group(rows[..i], pid) + [rows[i].row] else Group(rows[..i], pid)
  {
    assert rows[..i + 1][..i] == rows[..i];
    assert Group(rows[..i], pid) + [] == Group(rows[..i], pid);
  }

  lemma GroupSteps<T>(rows: seq<Tagged<T>>, i: nat, pids: set<Pid>)
    requires i < |rows|
    ensures forall pid {:trigger Group(rows[..i + 1], pid)} :: pid in pids ==>
              Group(rows[..i + 1], pid)
              == if rows[i].projectId == pid then Group(rows[..i], pid) + [rows[i].row] else Group(rows[..i], pid)
  {
    forall pid | pid in pids {
      GroupStep(rows, i, pid);
    }
  }

  // ----- the loops that fill the map ----------------------------------------

  /** What one row of each table does to its project. */
  function AddFlight(p: Project, f: Flight): Project { p.(flights := p.flights + [f]) }
  function AddAd(p: Project, a: Ad): Project { p.(ads := p.ads + [a]) }
  function AddSite(p: Project, s: Site): Project { p.(sites := p.sites + [s]) }
  function AddZone(p: Project, z: Zone): Project { p.(zones := p.zones + [z]) }
  function AddClick(p: Project, c: (int, string)): Project { p.(clickThroughUrls := p.clickThroughUrls[c.0 := c.1]) }
  function AddCreative(p: Project, c: Creative): Project { p.(creatives := p.creatives[c.id := c]) }

  function AddAll<T>(p: Project, rows: seq<T>, add: (Project, T) -> Project): Project {
    if rows == [] then p else add(AddAll(p, rows[..|rows| - 1], add), rows[|rows| - 1])
  }

  lemma AddAllStep<T>(p: Project, rows: seq<T>, r: T, add: (Project, T) -> Project)
    ensures AddAll(p, rows + [r], add) == add(AddAll(p, rows, add), r)
  {
    assert (rows + [r])[..|rows|] == rows;
  }

  /** The loop over one table's rows. Rows of projects that are not in the map are dropped. */
  method FillTable<T>(start: map<Pid, Project>, rows: seq<Tagged<T>>, add: (Project, T) -> Project)
    returns (m: map<Pid, Project>)
    ensures m.Keys == start.Keys
    ensures forall pid :: pid in m ==> m[pid] == AddAll(start[pid], Group(rows, pid), add)
  {
    hide Group, AddAll;
    m := start;
    NothingAdded(start, rows, add);
    for i := 0 to |rows|
      invariant m.Keys == start.Keys
      invariant forall pid :: pid in m ==> m[pid] == AddAll(start[pid], Group(rows[..i], pid), add)
    {
      var r := rows[i];
      GroupSteps(rows, i, m.Keys);
      if r.projectId in m {
        AddAllStep(start[r.projectId], Group(rows[..i], r.projectId), r.row, add);
        m := m[r.projectId := add(m[r.projectId], r.row)];
      }
    }
    assert rows[..|rows|] == rows;
  }

  lemma NothingAdded<T>(start: map<Pid, Project>, rows: seq<Tagged<T>>, add: (Project, T) -> Project)
    ensures forall pid :: pid in start ==> AddAll(start[pid], Group(rows[..0], pid), add) == start[pid]
  {
  }

  lemma {:induction false} AllFlights(p: Project, rows: seq<Flight>)
    ensures AddAll(p, rows, AddFlight) == p.(flights := p.flights + rows)
  {
    if rows != [] {
      AllFlights(p, rows[..|rows| - 1]);
      assert rows == rows[..|rows| - 1] + [rows[|rows| - 1]];
    }
  }

  lemma {:induction false} AllAds(p: Project, rows: seq<Ad>)
    ensures AddAll(p, rows, AddAd) == p.(ads := p.ads + rows)
  {
    if rows != [] {
      AllAds(p, rows[..|rows| - 1]);
      assert rows == rows[..|rows| - 1] + [rows[|rows| - 1]];
    }
  }

  lemma {:induction false} AllSites(p: Project, rows: seq<Site>)
    ensures AddAll(p, rows, AddSite) == p.(sites := p.sites + rows)
  {
    if rows != [] {
      AllSites(p, rows[..|rows| - 1]);
      assert rows == rows[..|rows| - 1] + [rows[|rows| - 1]];
    }
  }

  lemma {:induction false} AllZones(p: Project, rows: seq<Zone>)
    ensures AddAll(p, rows, AddZone) == p.(zones := p.zones + rows)
  {
    if rows != [] {
      AllZones(p, rows[..|rows| - 1]);
      assert rows == rows[..|rows| - 1] + [rows[|rows| - 1]];
    }
  }

  lemma {:induction false} AllClicks(p: Project, rows: seq<(int, string)>)
    requires p.clickThroughUrls == map[]
    ensures AddAll(p, rows, AddClick) == p.(clickThroughUrls := ClickMap(rows))
  {
    if rows != [] {
      AllClicks(p, rows[..|rows| - 1]);
    }
  }

  lemma {:induction false} AllCreatives(p: Project, rows: seq<Creative>)
    requires p.creatives == map[]
    ensures AddAll(p, rows, AddCreative) == p.(creatives := CreativeMap(rows))
  {
    if rows != [] {
      AllCreatives(p, rows[..|rows| - 1]);
    }
  }

  method Seed(rows: seq<ProjectRow>) returns (m: map<Pid, Project>)
    ensures m == SeedAll(rows)
  {
    m := map[];
    for i := 0 to |rows|
      invariant m == SeedAll(rows[..i])
    {
      assert rows[..i + 1][..i] == rows[..i];
      m := m[rows[i].id := Seeded(rows[i])];
    }
    assert rows[..|rows|] == rows;
  }

  /** Nothing but the project's own row has been read. */
  predicate Bare(p: Project) {
    && p.flights == [] && p.ads == [] && p.sites == [] && p.zones == []
    && p.clickThroughUrls == map[] && p.creatives == map[]
  }

  lemma {:induction false} SeedsAreBare(rows: seq<ProjectRow>)
    ensures forall pid :: pid in SeedAll(rows) ==> Bare(SeedAll(rows)[pid]) && SeedAll(rows)[pid].id == pid
  {
    if rows != [] {
      SeedsAreBare(rows[..|rows| - 1]);
    }
  }

  /** What one project ends up with, table by table. */
  function Filled(p: Project, flights: seq<Flight>, ads: seq<Ad>, sites: seq<Site>, zones: seq<Zone>,
                  clicks: seq<(int, string)>, creatives: seq<Creative>): Project
  {
    p.(flights := flights, ads := ads, sites := sites, zones := zones,
       clickThroughUrls := ClickMap(clicks), creatives := CreativeMap(creatives))
  }

  /** A seeded project after all its rows of every table have been added. */
  lemma AllAdded(p: Project, flights: seq<Flight>, ads: seq<Ad>, sites: seq<Site>, zones: seq<Zone>,
                 clicks: seq<(int, string)>, creatives: seq<Creative>)
    requires Bare(p)
    ensures var lists := AddAll(AddAll(AddAll(AddAll(p, flights, AddFlight), ads, AddAd), sites, AddSite),
                                zones, AddZone);
            AddAll(AddAll(lists, clicks, AddClick), creatives, AddCreative)
            == Filled(p, flights, ads, sites, zones, clicks, creatives)
  {
    hide AddAll, ClickMap, CreativeMap;
    AllFlights(p, flights);
    var withFlights := p.(flights := flights);
    assert [] + flights == flights && [] + ads == ads && [] + sites == sites && [] + zones == zones;
    AllAds(withFlights, ads);
    AllSites(withFlights.(ads := ads), sites);
    AllZones(withFlights.(ads := ads, sites := sites), zones);
    var lists := withFlights.(ads := ads, sites := sites, zones := zones);
    AllClicks(lists, clicks);
    AllCreatives(lists.(clickThroughUrls := ClickMap(clicks)), creatives);
  }

  method FillAll(seeds: map<Pid, Project>, flights: seq<Tagged<Flight>>, ads: seq<Tagged<Ad>>,
                 sites: seq<Tagged<Site>>, zones: seq<Tagged<Zone>>, clicks: seq<Tagged<(int, string)>>,
                 creatives: seq<Tagged<Creative>>)
    returns (m: map<Pid, Project>)
    requires forall pid :: pid in seeds ==> Bare(seeds[pid])
    ensures m.Keys == seeds.Keys
    ensures forall pid :: pid in m ==>
              m[pid] == Filled(seeds[pid], Group(flights, pid), Group(ads, pid), Group(sites, pid), Group(zones, pid),
                               Group(clicks, pid), Group(creatives, pid))
  {
    hide Group, ClickMap, CreativeMap, AddAll, AddFlight, AddAd, AddSite, AddZone, AddClick, AddCreative, Filled;
    var m1 := FillTable(seeds, flights, AddFlight);
    var m2 := FillTable(m1, ads, AddAd);
    var m3 := FillTable(m2, sites, AddSite);
    var m4 := FillTable(m3, zones, AddZone);
    var m5 := FillTable(m4, clicks, AddClick);
    m := FillTable(m5, creatives, AddCreative);
    forall pid | pid in m
      ensures m[pid] == Filled(seeds[pid], Group(flights, pid), Group(ads, pid), Group(sites, pid), Group(zones, pid),
                               Group(clicks, pid), Group(creatives, pid))
    {
      AllAdded(seeds[pid], Group(flights, pid), Group(ads, pid), Group(sites, pid), Group(zones, pid),
               Group(clicks, pid), Group(creatives, pid));
    }
  }

  /** The reload, given the version and the rows its queries returned, in that order. */
  method LoadSnapshot(version: int, projects: seq<ProjectRow>, flights: seq<Tagged<Flight>>, ads: seq<Tagged<Ad>>,
                      sites: seq<Tagged<Site>>, zones: seq<Tagged<Zone>>, clicks: seq<Tagged<(int, string)>>,
                      creatives: seq<Tagged<Creative>>)
    returns (r: Snapshot)
    ensures r == Snapshot(version, Assemble(projects, flights, ads, sites, zones, clicks, creatives))
  {
    hide Group, ClickMap, CreativeMap, SeedAll;
    var seeds := Seed(projects);
    SeedsAreBare(projects);
    var m := FillAll(seeds, flights, ads, sites, zones, clicks, creatives);
    r := Snapshot(version, m);
    assert r.projects == Assemble(projects, flights, ads, sites, zones, clicks, creatives);
  }

  // ----- tenants stay apart -------------------------------------------------

  lemma {:induction false} GroupMembers<T>(rows: seq<Tagged<T>>, pid: Pid, x: T)
    ensures multiset(Group(rows, pid))[x] == multiset(rows)[Tagged(pid, x)]
  {
    if rows != [] {
      GroupMembers(rows[..|rows| - 1], pid, x);
      assert rows == rows[..|rows| - 1] + [rows[|rows| - 1]];
    }
  }

  /**
   A project of the snapshot holds a flight, ad, site or zone exactly as often as
   the query returned it under that project's id, and it carries that id itself.
   */
  lemma ProjectHoldsItsOwnRows(projects: seq<ProjectRow>, flights: seq<Tagged<Flight>>, ads: seq<Tagged<Ad>>,
                               sites: seq<Tagged<Site>>, zones: seq<Tagged<Zone>>, clicks: seq<Tagged<(int, string)>>,
                               creatives: seq<Tagged<Creative>>, pid: Pid)
    requires pid in Assemble(projects, flights, ads, sites, zones, clicks, creatives)
    ensures var p := Assemble(projects, flights, ads, sites, zones, clicks, creatives)[pid];
            && p.id == pid
            && (forall f :: multiset(p.flights)[f] == multiset(flights)[Tagged(pid, f)])
            && (forall a :: multiset(p.ads)[a] == multiset(ads)[Tagged(pid, a)])
            && (forall s :: multiset(p.sites)[s] == multiset(sites)[Tagged(pid, s)])
            && (forall z :: multiset(p.zones)[z] == multiset(zones)[Tagged(pid, z)])
  {
    SeedsAreBare(projects);
    forall f { GroupMembers(flights, pid, f); }
    forall a { GroupMembers(ads, pid, a); }
    forall s { GroupMembers(sites, pid, s); }
    forall z { GroupMembers(zones, pid, z); }
  }

  lemma {:induction false} CreativeMapMembers(rows: seq<Creative>, id: int)
    ensures id in CreativeMap(rows) ==> CreativeMap(rows)[id] in rows && CreativeMap(rows)[id].id == id
    ensures (exists c :: c in rows && c.id == id) ==> id in CreativeMap(rows)
  {
    if rows != [] {
      CreativeMapMembers(rows[..|rows| - 1], id);
      assert rows == rows[..|rows| - 1] + [rows[|rows| - 1]];
    }
  }

  /**
   A creative of the snapshot is a row of that project's own; if it names a
   template, that template belongs to the same project.
   */
  lemma CreativesStayInProject(db: Database, pid: Pid, id: int)
    requires id in CreativeMap(Group(CreativeRows(db.creatives, db.templates), pid))
    ensures var c := CreativeMap(Group(CreativeRows(db.creatives, db.templates), pid))[id];
            exists row :: row in db.creatives && row.id == id && row.projectId == pid && c.id == id
                          && c.kind == row.kind && c.stored == row.stored && c.clickThroughUrl == row.clickThroughUrl
                          && (c.templateName.Some? ==>
                                row.templateId.Some? && row.templateId.value in db.templates
                                && db.templates[row.templateId.value].projectId == pid
                                && c.templateName.value == db.templates[row.templateId.value].name
                                && c.templateSource == db.templates[row.templateId.value].source)
  {
    var rows := CreativeRows(db.creatives, db.templates);
    var c := CreativeMap(Group(rows, pid))[id];
    CreativeMapMembers(Group(rows, pid), id);
    GroupMembers(rows, pid, c);
    assert multiset(Group(rows, pid))[c] > 0;
    assert Tagged(pid, c) in rows;
    var i :| 0 <= i < |rows| && rows[i] == Tagged(pid, c);
    assert db.creatives[i] in db.creatives && c == Joined(db.creatives[i], db.templates);
  }

  // ----- what the queries return --------------------------------------------

  lemma {:induction false} SeedMembers(rows: seq<ProjectRow>, pid: Pid)
    ensures pid in SeedAll(rows) <==> exists r :: r in rows && r.id == pid
    ensures pid in SeedAll(rows) ==> exists r :: r in rows && r.id == pid && SeedAll(rows)[pid] == Seeded(r)
  {
    if rows != [] {
      SeedMembers(rows[..|rows| - 1], pid);
      assert rows == rows[..|rows| - 1] + [rows[|rows| - 1]];
      assert rows[|rows| - 1] in rows;
    }
  }

  lemma {:induction false} ActiveMembers(rows: seq<ProjectRow>, r: ProjectRow)
    ensures r in ActiveProjects(rows) <==> r in rows && r.isActive
  {
    if rows != [] {
      ActiveMembers(rows[..|rows| - 1], r);
      assert rows == rows[..|rows| - 1] + [rows[|rows| - 1]];
    }
  }

  /** Exactly the active projects are in the snapshot, each with its own row's secret and organisation. */
  lemma SnapshotHasActiveProjects(rows: seq<ProjectRow>, pid: Pid)
    ensures pid in SeedAll(ActiveProjects(rows)) <==> exists r :: r in rows && r.id == pid && r.isActive
    ensures pid in SeedAll(ActiveProjects(rows)) ==>
              exists r :: r in rows && r.id == pid && r.isActive
                          && SeedAll(ActiveProjects(rows))[pid].secret == r.secret
                          && SeedAll(ActiveProjects(rows))[pid].orgId == r.orgId
                          && SeedAll(ActiveProjects(rows))[pid].allowForce == r.allowForce
                          && SeedAll(ActiveProjects(rows))[pid].previousSecret.None?
  {
    SeedMembers(ActiveProjects(rows), pid);
    forall r {
      ActiveMembers(rows, r);
    }
  }

  /** A flight of the snapshot is a flight row with the tier of its priority and the advertiser of its campaign. */
  lemma {:induction false} FlightRowMembers(rows: seq<FlightRow>, tiers: map<int, Tagged<i32>>,
                                            advertisers: map<int, Tagged<int>>, t: Tagged<Flight>)
    ensures t in FlightRows(rows, tiers, advertisers)
       <==> exists f :: f in rows && f.projectId == t.projectId && f.priorityId in tiers && f.campaignId in advertisers
              && t.row.id == f.id && t.row.campaignId == f.campaignId && t.row.tier == tiers[f.priorityId].row
              && t.row.advertiserId == advertisers[f.campaignId].row && t.row.isActive == f.isActive
              && t.row.siteIds == f.siteIds && t.row.zoneIds == f.zoneIds && t.row.adTypes == f.adTypes
              && t.row.startMs == ToMillis(f.startSecs) && t.row.endMs == ToMillis(f.endSecs)
  {
    if rows != [] {
      FlightRowMembers(rows[..|rows| - 1], tiers, advertisers, t);
      assert rows == rows[..|rows| - 1] + [rows[|rows| - 1]];
      assert rows[|rows| - 1] in rows;
    }
  }

  // ----- joins that do not look at the project ------------------------------

  /** Primary keys are global. */
  ghost predicate UniqueKeys(db: Database) {
    && (forall a, b :: a in db.ads && b in db.ads && a.row.id == b.row.id ==> a == b)
    && forall c, d :: c in db.creatives && d in db.creatives && c.id == d.id ==> c == d
  }

  lemma {:induction false} FindCreativeIff(rows: seq<CreativeRow>, c: CreativeRow)
    requires forall d, e :: d in rows && e in rows && d.id == e.id ==> d == e
    ensures c in rows ==> FindCreative(rows, Some(c.id)) == Some(c)
  {
    if rows != [] && c in rows[1..] {
      FindCreativeIff(rows[1..], c);
    }
  }

  lemma {:induction false} ClickRowOf(ads: seq<Tagged<Ad>>, creatives: seq<CreativeRow>, a: Tagged<Ad>)
    requires a in ads
    requires var c := FindCreative(creatives, a.row.creativeId); c.Some? && c.value.clickThroughUrl.Some?
    ensures Tagged(a.projectId, (a.row.id, FindCreative(creatives, a.row.creativeId).value.clickThroughUrl.value))
            in ClickRows(ads, creatives)
  {
    var init, last := ads[..|ads| - 1], ads[|ads| - 1];
    assert ads == init + [last];
    if a in init {
      ClickRowOf(init, creatives, a);
    }
  }

  lemma {:induction false} ClickRowSource(ads: seq<Tagged<Ad>>, creatives: seq<CreativeRow>,
                                          t: Tagged<(int, string)>)
    requires t in ClickRows(ads, creatives)
    ensures exists a :: a in ads && a.projectId == t.projectId && a.row.id == t.row.0
              && var c := FindCreative(creatives, a.row.creativeId);
                 c.Some? && c.value.clickThroughUrl == Some(t.row.1)
  {
    var init, last := ads[..|ads| - 1], ads[|ads| - 1];
    assert ads == init + [last] && last in ads;
    if t in ClickRows(init, creatives) {
      ClickRowSource(init, creatives, t);
    }
  }

  lemma {:induction false} ClickMapMembers(rows: seq<(int, string)>, id: int)
    ensures id in ClickMap(rows) ==> (id, ClickMap(rows)[id]) in rows
    ensures forall url :: (id, url) in rows ==> id in ClickMap(rows)
  {
    if rows != [] {
      ClickMapMembers(rows[..|rows| - 1], id);
      assert rows == rows[..|rows| - 1] + [rows[|rows| - 1]];
    }
  }

  /** What project `pid` of the snapshot redirects clicks to. */
  function ClicksOf(db: Database, pid: Pid): map<int, string> {
    ClickMap(Group(ClickRows(db.ads, db.creatives), pid))
  }

  lemma ClickMember(db: Database, pid: Pid, id: int, url: string)
    requires id in ClicksOf(db, pid) && ClicksOf(db, pid)[id] == url
    ensures Tagged(pid, (id, url)) in ClickRows(db.ads, db.creatives)
  {
    var rows := ClickRows(db.ads, db.creatives);
    ClickMapMembers(Group(rows, pid), id);
    GroupMembers(rows, pid, (id, url));
    assert multiset(Group(rows, pid))[(id, url)] > 0;
    assert multiset(rows)[Tagged(pid, (id, url))] > 0;
  }

  lemma ClickPresent(db: Database, pid: Pid, id: int, url: string)
    requires Tagged(pid, (id, url)) in ClickRows(db.ads, db.creatives)
    ensures id in ClicksOf(db, pid)
  {
    var rows := ClickRows(db.ads, db.creatives);
    GroupMembers(rows, pid, (id, url));
    assert multiset(rows)[Tagged(pid, (id, url))] > 0;
    assert (id, url) in Group(rows, pid);
    ClickMapMembers(Group(rows, pid), id);
  }

  /**
   An ad's click target is that of the creative it refers to, whichever project
   that creative is in: the join has no project guard, unlike the one for templates.
   So it is a target of the ad's own project iff the creative row has the ad's
   project id.
   */
  lemma ClickTargetIsOwnIff(db: Database, a: Tagged<Ad>, c: CreativeRow)
    requires UniqueKeys(db) && a in db.ads && c in db.creatives
    requires a.row.creativeId == Some(c.id) && c.clickThroughUrl.Some?
    ensures var clicks := ClicksOf(db, a.projectId);
            && a.row.id in clicks && Some(clicks[a.row.id]) == c.clickThroughUrl
            && ((exists own :: own in db.creatives && own.projectId == a.projectId && a.row.creativeId == Some(own.id)
                               && own.clickThroughUrl == Some(clicks[a.row.id]))
                <==> c.projectId == a.projectId)
  {
    hide ClicksOf, ClickRows;
    FindCreativeIff(db.creatives, c);
    ClickRowOf(db.ads, db.creatives, a);
    ClickPresent(db, a.projectId, a.row.id, c.clickThroughUrl.value);
    var url := ClicksOf(db, a.projectId)[a.row.id];
    ClickMember(db, a.projectId, a.row.id, url);
    ClickRowSource(db.ads, db.creatives, Tagged(a.projectId, (a.row.id, url)));
  }

  /** A row that breaks it: project 1's ad refers to project 2's creative and gets its click target. */
  lemma ForeignClickTarget(db: Database, ad: Ad, c: CreativeRow)
    requires db.ads == [Tagged([1], ad)] && db.creatives == [c] && c.projectId == [2]
    requires ad.creativeId == Some(c.id) && c.clickThroughUrl.Some?
    ensures ClicksOf(db, [1]) == map[ad.id := c.clickThroughUrl.value]
  {
    hide ClicksOf, ClickRows;
    var a := Tagged([1], ad);
    ClickTargetIsOwnIff(db, a, c);
    forall id | id in ClicksOf(db, [1])
      ensures id == ad.id
    {
      ClickMember(db, [1], id, ClicksOf(db, [1])[id]);
      ClickRowSource(db.ads, db.creatives, Tagged([1], (id, ClicksOf(db, [1])[id])));
    }
  }

  /**
   The joins with priorities and campaigns have no guard either: a flight takes the
   tier and the advertiser of the rows it refers to, whatever project those are in.
   */
  lemma FlightTakesReferredRows(db: Database, f: FlightRow)
    requires f in db.flights && f.priorityId in db.tiers && f.campaignId in db.advertisers
    ensures exists t :: t in Group(FlightRows(db.flights, db.tiers, db.advertisers), f.projectId)
              && t.id == f.id && t.tier == db.tiers[f.priorityId].row
              && t.advertiserId == db.advertisers[f.campaignId].row
  {
    hide FlightRows;
    var rows := FlightRows(db.flights, db.tiers, db.advertisers);
    var t := Flight(f.id, f.campaignId, db.advertisers[f.campaignId].row, db.tiers[f.priorityId].row,
                    ToMillis(f.startSecs), ToMillis(f.endSecs), f.siteIds, f.zoneIds, f.adTypes, f.isActive);
    FlightRowMembers(db.flights, db.tiers, db.advertisers, Tagged(f.projectId, t));
    GroupMembers(rows, f.projectId, t);
    assert multiset(rows)[Tagged(f.projectId, t)] > 0;
    assert t in Group(rows, f.projectId);
  }
}
