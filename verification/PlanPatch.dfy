/**
 Incremental changes to a build plan: `ApplyPatch` and `ValidatePlan` of brain/plan.go. The plan that
 UPDATE_PLAN stores is the patched one, and it is not validated again (brain/stages.go:312-315).
 */
module PlanPatch {
  import opened GoStrings
  import opened Wrappers

  /** `rest` stands for the fields that neither function looks at. */
  datatype Page = Page(path: string, rest: string)

  datatype Endpoint = Endpoint(action: string, path: string, rest: string)

  datatype Table = Table(name: string, columns: seq<string>, rest: string)

  /** A map that is None is a nil map. */
  datatype Design = Design(
    colors: Option<map<string, string>>,
    typography: Option<string>,
    spacing: string,
    radius: string,
    darkMode: bool,
    components: Option<map<string, string>>)

  datatype Patch = Patch(
    addPages: seq<Page>,
    modifyPages: seq<Page>,
    removePages: seq<string>,
    addEndpoints: seq<Endpoint>,
    addTables: seq<Table>,
    addWebhooks: seq<string>,
    addTasks: seq<string>,
    authStrategy: string,
    design: Option<Design>,
    layout: Option<string>)

  datatype Content = Content(
    appType: string,
    authStrategy: string,
    design: Option<Design>,
    layout: Option<string>,
    tables: seq<Table>,
    endpoints: seq<Endpoint>,
    pages: seq<Page>,
    exclusions: seq<string>,
    webhooks: seq<string>,
    tasks: seq<string>)

  // What ValidatePlan accepts.

  function Paths(pages: seq<Page>): (r: seq<string>)
    ensures |r| == |pages|
  {
    seq(|pages|, i requires 0 <= i < |pages| => pages[i].path)
  }

  predicate Distinct(s: seq<string>) { forall i, j :: 0 <= i < j < |s| ==> s[i] != s[j] }

  /** The colours hold a name, and it is not blank. */
  predicate Named(colors: map<string, string>, name: string) { name in colors && colors[name] != "" }

  predicate ValidDesign(d: Design) {
    d.colors.Some? && Named(d.colors.value, "primary") && Named(d.colors.value, "bg")
  }

  predicate ValidEndpoint(e: Endpoint) {
    e.action in {"create_api", "create_auth", "create_websocket", "create_stream", "create_upload"} && e.path != ""
  }

  predicate SystemColumn(c: string) { c == "id" || c == "created_at" || c == "updated_at" }

  predicate ValidTable(t: Table) {
    t.name != "" && Distinct(t.columns) && (t.columns == [] || exists c :: c in t.columns && !SystemColumn(c))
  }

  predicate Valid(c: Content) {
    && c.appType != ""
    && Distinct(Paths(c.pages)) && "/" in Paths(c.pages)
    && (c.design.Some? ==> ValidDesign(c.design.value))
    && (forall e :: e in c.endpoints ==> ValidEndpoint(e))
    && forall t :: t in c.tables ==> ValidTable(t)
  }

  // What ApplyPatch makes of a plan.

  function Without(pages: seq<Page>, path: string): seq<Page> {
    if pages == [] then [] else if pages[0].path == path then pages[1..] else [pages[0]] + Without(pages[1..], path)
  }

  function WithoutAll(pages: seq<Page>, paths: seq<string>): seq<Page> {
    if paths == [] then pages else Without(WithoutAll(pages, paths[..|paths| - 1]), paths[|paths| - 1])
  }

  function Replaced(pages: seq<Page>, page: Page): seq<Page> {
    if pages == [] then []
    else if pages[0].path == page.path then [page] + pages[1..]
    else [pages[0]] + Replaced(pages[1..], page)
  }

  function ReplacedAll(pages: seq<Page>, mods: seq<Page>): seq<Page> {
    if mods == [] then pages else Replaced(ReplacedAll(pages, mods[..|mods| - 1]), mods[|mods| - 1])
  }

  predicate Excluded(exclusions: seq<string>, e: Endpoint) {
    e.action == "create_auth" && Contains(Join(exclusions, " "), "no auth")
  }

  function Admitted(exclusions: seq<string>, endpoints: seq<Endpoint>): seq<Endpoint> {
    if exclusions == [] then endpoints
    else if endpoints == [] then []
    else
      var n := |endpoints| - 1;
      Admitted(exclusions, endpoints[..n]) + if Excluded(exclusions, endpoints[n]) then [] else [endpoints[n]]
  }

  function Colors(d: Design): map<string, string> { if d.colors.Some? then d.colors.value else map[] }

  /** Writing an entry of a nil map panics. */
  predicate Panics(c: Content, p: Patch) {
    c.design.Some? && p.design.Some? && c.design.value.colors.None? && Colors(p.design.value) != map[]
  }

  function MergedDesign(d: Design, u: Design): Design {
    Design(
      if d.colors.Some? then Some(d.colors.value + Colors(u)) else None,
      if u.typography.Some? then u.typography else d.typography,
      if u.spacing != "" then u.spacing else d.spacing,
      if u.radius != "" then u.radius else d.radius,
      u.darkMode,
      if u.components.None? then d.components
      else Some((if d.components.Some? then d.components.value else map[]) + u.components.value))
  }

  function Patched(c: Content, p: Patch): Content {
    Content(
      c.appType,
      if p.authStrategy != "" then p.authStrategy else c.authStrategy,
      if p.design.None? then c.design
      else if c.design.None? then p.design
      else Some(MergedDesign(c.design.value, p.design.value)),
      if p.layout.Some? then p.layout else c.layout,
      c.tables + p.addTables,
      c.endpoints + Admitted(c.exclusions, p.addEndpoints),
      ReplacedAll(WithoutAll(c.pages, p.removePages), p.modifyPages) + p.addPages,
      c.exclusions,
      c.webhooks + p.addWebhooks,
      c.tasks + p.addTasks)
  }

  class Plan {
    var appType: string
    var authStrategy: string
    var design: Option<Design>
    var layout: Option<string>
    var tables: seq<Table>
    var endpoints: seq<Endpoint>
    var pages: seq<Page>
    var exclusions: seq<string>
    var webhooks: seq<string>
    var tasks: seq<string>

    ghost function Contents(): Content reads this {
      Content(appType, authStrategy, design, layout, tables, endpoints, pages, exclusions, webhooks, tasks)
    }

    /** Drops the first page at the path. */
    method RemovePage(path: string)
      modifies this`pages
      ensures pages == Without(old(pages), path)
    {
      for i := 0 to |pages|
        invariant pages == old(pages) && forall j :: 0 <= j < i ==> pages[j].path != path
      {
        if pages[i].path == path {
          FirstAt(pages, path, i);
          pages := pages[..i] + pages[i + 1..];
          return;
        }
      }
      NoneAt(pages, path);
    }

    method ReplacePage(page: Page)
      modifies this`pages
      ensures pages == Replaced(old(pages), page)
    {
      for i := 0 to |pages|
        invariant pages == old(pages) && forall j :: 0 <= j < i ==> pages[j].path != page.path
      {
        if pages[i].path == page.path {
          FirstReplaced(pages, page, i);
          pages := pages[i := page];
          return;
        }
      }
      NoneReplaced(pages, page);
    }

    /** Removes first, so that a page can be added again, then replaces in place. */
    method EditPages(patch: Patch)
      modifies this`pages
      ensures pages == ReplacedAll(WithoutAll(old(pages), patch.removePages), patch.modifyPages)
    {
      assert patch.removePages[..0] == [] && patch.modifyPages[..0] == [];
      for i := 0 to |patch.removePages|
        invariant pages == WithoutAll(old(pages), patch.removePages[..i])
      {
        assert patch.removePages[..i + 1][..i] == patch.removePages[..i];
        RemovePage(patch.removePages[i]);
      }
      assert patch.removePages[..|patch.removePages|] == patch.removePages;
      ghost var left := pages;
      for i := 0 to |patch.modifyPages|
        invariant pages == ReplacedAll(left, patch.modifyPages[..i])
      {
        assert patch.modifyPages[..i + 1][..i] == patch.modifyPages[..i];
        ReplacePage(patch.modifyPages[i]);
      }
      assert patch.modifyPages[..|patch.modifyPages|] == patch.modifyPages;
    }

    /** Applies the patch in place; false stands for the panic of a write to a nil map. */
    method ApplyPatch(patch: Patch) returns (ok: bool)
      modifies this
      ensures ok <==> !Panics(old(Contents()), patch)
      ensures ok ==> Contents() == Patched(old(Contents()), patch)
      ensures !ok ==> Contents() == Patched(old(Contents()), patch).(design := old(design))
    {
      hide Without, Replaced, Excluded, MergedDesign, Join, Contains;
      var filtered := patch.addEndpoints;
      if |exclusions| > 0 {
        filtered := Filter(exclusions, patch.addEndpoints);
      }
      EditPages(patch);
      pages := pages + patch.addPages;
      endpoints, tables := endpoints + filtered, tables + patch.addTables;
      webhooks, tasks := webhooks + patch.addWebhooks, tasks + patch.addTasks;
      if patch.authStrategy != "" {
        authStrategy := patch.authStrategy;
      }
      if patch.layout.Some? {
        layout := patch.layout;
      }
      ok := true;
      if patch.design.Some? {
        if design.None? {
          design := patch.design;
        } else {
          ok := MergeDesign(patch.design.value);
        }
      }
    }

    method MergeDesign(u: Design) returns (ok: bool)
      requires design.Some?
      modifies this`design
      ensures ok <==> old(design).value.colors.Some? || Colors(u) == map[]
      ensures design == if ok then Some(MergedDesign(old(design).value, u)) else old(design)
    {
      var d := design.value;
      if Colors(u) != map[] {
        if d.colors.None? {
          return false;
        }
        var colors := Merge(d.colors.value, Colors(u));
        d := d.(colors := Some(colors));
      } else {
        assert d.colors.Some? ==> d.colors.value + Colors(u) == d.colors.value;
      }
      if u.typography.Some? {
        d := d.(typography := u.typography);
      }
      if u.spacing != "" {
        d := d.(spacing := u.spacing);
      }
      if u.radius != "" {
        d := d.(radius := u.radius);
      }
      d := d.(darkMode := u.darkMode);
      if u.components.Some? {
        var into := if d.components.Some? then d.components.value else map[];
        var components := Merge(into, u.components.value);
        d := d.(components := Some(components));
      }
      design, ok := Some(d), true;
    }

    /** Lists what is wrong with the plan. */
    method ValidatePlan() returns (errs: seq<string>)
      ensures errs == [] <==> Valid(Contents())
    {
      hide ValidEndpoint, ValidTable, Distinct, Paths;
      errs := [];
      if appType == "" {
        errs := errs + ["app_type is required"];
      }
      if |pages| < 1 {
        errs := errs + ["plan must include at least 1 page"];
      }
      var more := CheckPaths(pages);
      errs := errs + more;
      if design.Some? {
        var d := design.value;
        if d.colors.None? || d.colors.value == map[] {
          errs := errs + ["design_system.colors is required when design_system is present"];
        } else {
          if "primary" !in d.colors.value || d.colors.value["primary"] == "" {
            errs := errs + ["design_system.colors must include 'primary'"];
          }
          if "bg" !in d.colors.value || d.colors.value["bg"] == "" {
            errs := errs + ["design_system.colors must include 'bg'"];
          }
        }
      }
      more := CheckEndpoints(endpoints);
      errs := errs + more;
      more := CheckTables(tables);
      errs := errs + more;
    }
  }

  method CheckPaths(pages: seq<Page>) returns (errs: seq<string>)
    ensures errs == [] <==> Distinct(Paths(pages)) && "/" in Paths(pages)
  {
    errs := [];
    var paths: set<string> := {};
    for i := 0 to |pages|
      invariant forall p :: p in paths <==> p in Paths(pages)[..i]
      invariant errs == [] <==> Distinct(Paths(pages)[..i])
    {
      if pages[i].path in paths {
        errs := errs + ["duplicate page path: " + pages[i].path];
      }
      paths := paths + {pages[i].path};
      DistinctNext(Paths(pages), i);
    }
    assert Paths(pages)[..|pages|] == Paths(pages);
    if "/" !in paths {
      errs := errs + ["plan must include a homepage at path /"];
    }
  }

  lemma DistinctNext(s: seq<string>, i: nat)
    requires i < |s|
    ensures s[..i + 1] == s[..i] + [s[i]]
    ensures Distinct(s[..i + 1]) <==> Distinct(s[..i]) && s[i] !in s[..i]
  {
    if Distinct(s[..i + 1]) {
      forall j, k | 0 <= j < k < i ensures s[..i][j] != s[..i][k] {
        assert s[..i + 1][j] != s[..i + 1][k];
      }
      forall j | 0 <= j < i ensures s[j] != s[i] {
        assert s[..i + 1][j] != s[..i + 1][i];
      }
    }
  }

  method CheckEndpoints(endpoints: seq<Endpoint>) returns (errs: seq<string>)
    ensures errs == [] <==> forall e :: e in endpoints ==> ValidEndpoint(e)
  {
    var validActions := {"create_api", "create_auth", "create_websocket", "create_stream", "create_upload"};
    errs := [];
    for i := 0 to |endpoints|
      invariant errs == [] <==> forall j :: 0 <= j < i ==> ValidEndpoint(endpoints[j])
    {
      if endpoints[i].action !in validActions {
        errs := errs + ["action is not valid"];
      }
      if endpoints[i].path == "" {
        errs := errs + ["path is required"];
      }
    }
  }

  method CheckTables(tables: seq<Table>) returns (errs: seq<string>)
    ensures errs == [] <==> forall t :: t in tables ==> ValidTable(t)
  {
    errs := [];
    for i := 0 to |tables|
      invariant errs == [] <==> forall j :: 0 <= j < i ==> ValidTable(tables[j])
    {
      hide Distinct, SystemColumn;
      var more := CheckTable(tables[i]);
      errs := errs + more;
    }
  }

  method CheckTable(t: Table) returns (errs: seq<string>)
    ensures errs == [] <==> ValidTable(t)
  {
    if t.name == "" {
      return ["name is required"];
    }
    errs := [];
    var colNames: set<string> := {};
    var nonSystem := 0;
    for i := 0 to |t.columns|
      invariant forall c :: c in colNames <==> c in t.columns[..i]
      invariant errs == [] <==> Distinct(t.columns[..i])
      invariant nonSystem >= 0
      invariant nonSystem > 0 <==> exists c :: c in t.columns[..i] && !SystemColumn(c)
    {
      var c := t.columns[i];
      if c in colNames {
        errs := errs + ["duplicate column name: " + c];
      }
      DistinctNext(t.columns, i);
      colNames := colNames + {c};
      if c != "id" && c != "created_at" && c != "updated_at" {
        nonSystem := nonSystem + 1;
      }
    }
    assert t.columns[..|t.columns|] == t.columns;
    if nonSystem == 0 && |t.columns| > 0 {
      errs := errs + ["no non-system columns"];
    }
  }

  /** Writes the entries of `from` one by one, in whatever order the map is walked. */
  method Merge(into: map<string, string>, from: map<string, string>) returns (m: map<string, string>)
    ensures m == into + from
  {
    m := into;
    var pending := from.Keys;
    while pending != {}
      invariant pending <= from.Keys && m.Keys == into.Keys + (from.Keys - pending)
      invariant forall k :: k in m ==> m[k] == if k in from && k !in pending then from[k] else into[k]
      decreases |pending|
    {
      var k :| k in pending;
      m, pending := m[k := from[k]], pending - {k};
    }
  }

  method Filter(exclusions: seq<string>, endpoints: seq<Endpoint>) returns (filtered: seq<Endpoint>)
    requires exclusions != []
    ensures filtered == Admitted(exclusions, endpoints)
  {
    var exclusionSet := Join(exclusions, " ");
    filtered := [];
    for i := 0 to |endpoints|
      invariant filtered == Admitted(exclusions, endpoints[..i])
    {
      var e := endpoints[i];
      assert endpoints[..i + 1][..i] == endpoints[..i];
      if e.action == "create_auth" && Contains(exclusionSet, "no auth") {
        continue;
      }
      filtered := filtered + [e];
    }
    assert endpoints[..|endpoints|] == endpoints;
  }

  lemma {:induction false} FirstAt(pages: seq<Page>, path: string, i: nat)
    requires i < |pages| && pages[i].path == path && forall j :: 0 <= j < i ==> pages[j].path != path
    ensures Without(pages, path) == pages[..i] + pages[i + 1..]
    decreases |pages|
  {
    if i > 0 {
      FirstAt(pages[1..], path, i - 1);
    }
  }

  lemma {:induction false} NoneAt(pages: seq<Page>, path: string)
    requires forall j :: 0 <= j < |pages| ==> pages[j].path != path
    ensures Without(pages, path) == pages
    decreases |pages|
  {
    if pages != [] {
      NoneAt(pages[1..], path);
    }
  }

  lemma {:induction false} FirstReplaced(pages: seq<Page>, page: Page, i: nat)
    requires i < |pages| && pages[i].path == page.path && forall j :: 0 <= j < i ==> pages[j].path != page.path
    ensures Replaced(pages, page) == pages[i := page]
    decreases |pages|
  {
    if i > 0 {
      FirstReplaced(pages[1..], page, i - 1);
    }
  }

  lemma {:induction false} NoneReplaced(pages: seq<Page>, page: Page)
    requires forall j :: 0 <= j < |pages| ==> pages[j].path != page.path
    ensures Replaced(pages, page) == pages
    decreases |pages|
  {
    if pages != [] {
      NoneReplaced(pages[1..], page);
    }
  }

  // The pages of a patched plan.

  /** The pages whose path is not gone, in order. */
  function Survivors(pages: seq<Page>, gone: set<string>): seq<Page> {
    if pages == [] then []
    else if pages[0].path in gone then Survivors(pages[1..], gone)
    else [pages[0]] + Survivors(pages[1..], gone)
  }

  function AsSet(paths: seq<string>): set<string> { set p | p in paths }

  /** The replacement that counts is the last one. */
  function Latest(page: Page, mods: seq<Page>): Page {
    if mods == [] then page
    else if mods[|mods| - 1].path == page.path then mods[|mods| - 1]
    else Latest(page, mods[..|mods| - 1])
  }

  lemma PathsDiffer(pages: seq<Page>)
    ensures Distinct(Paths(pages)) <==> forall i, j :: 0 <= i < j < |pages| ==> pages[i].path != pages[j].path
    ensures pages != [] && Distinct(Paths(pages)) ==> Distinct(Paths(pages[1..]))
  {
    assert forall i :: 0 <= i < |pages| ==> Paths(pages)[i] == pages[i].path;
    if pages != [] {
      assert Paths(pages[1..]) == Paths(pages)[1..];
    }
  }

  lemma {:induction false} SurvivorsAre(pages: seq<Page>, gone: set<string>)
    requires Distinct(Paths(pages))
    ensures Distinct(Paths(Survivors(pages, gone)))
    ensures forall page :: page in Survivors(pages, gone) <==> page in pages && page.path !in gone
    decreases |pages|
  {
    hide Paths, Distinct;
    PathsDiffer(pages);
    PathsDiffer(Survivors(pages, gone));
    if pages != [] {
      SurvivorsAre(pages[1..], gone);
      PathsDiffer(Survivors(pages[1..], gone));
    }
  }

  lemma {:induction false} GoneElsewhere(pages: seq<Page>, gone: set<string>, path: string)
    requires forall page :: page in pages ==> page.path != path
    ensures Survivors(pages, gone + {path}) == Survivors(pages, gone)
    decreases |pages|
  {
    if pages != [] {
      GoneElsewhere(pages[1..], gone, path);
    }
  }

  lemma {:induction false} OneGone(pages: seq<Page>, gone: set<string>, path: string)
    requires Distinct(Paths(pages))
    ensures Without(Survivors(pages, gone), path) == Survivors(pages, gone + {path})
    decreases |pages|
  {
    hide Paths, Distinct;
    PathsDiffer(pages);
    if pages != [] {
      OneGone(pages[1..], gone, path);
      if pages[0].path == path {
        forall page | page in pages[1..] ensures page.path != path {
          var i :| 1 <= i < |pages| && pages[i] == page;
        }
        GoneElsewhere(pages[1..], gone, path);
      }
    }
  }

  lemma {:induction false} RemovedInOrder(pages: seq<Page>, paths: seq<string>)
    requires Distinct(Paths(pages))
    ensures WithoutAll(pages, paths) == Survivors(pages, AsSet(paths))
    decreases |paths|
  {
    if paths == [] {
      NothingGone(pages);
    } else {
      var n := |paths| - 1;
      RemovedInOrder(pages, paths[..n]);
      OneGone(pages, AsSet(paths[..n]), paths[n]);
      assert paths == paths[..n] + [paths[n]];
      assert AsSet(paths) == AsSet(paths[..n]) + {paths[n]};
    }
  }

  lemma {:induction false} NothingGone(pages: seq<Page>)
    ensures Survivors(pages, AsSet([])) == pages
    decreases |pages|
  {
    if pages != [] {
      NothingGone(pages[1..]);
    }
  }

  lemma {:induction false} ReplacedAt(pages: seq<Page>, page: Page)
    requires Distinct(Paths(pages))
    ensures |Replaced(pages, page)| == |pages|
    ensures forall i :: 0 <= i < |pages| ==>
              Replaced(pages, page)[i] == if pages[i].path == page.path then page else pages[i]
    decreases |pages|
  {
    hide Paths, Distinct;
    PathsDiffer(pages);
    if pages != [] {
      ReplacedAt(pages[1..], page);
    }
  }

  lemma {:induction false} ReplacedInOrder(pages: seq<Page>, mods: seq<Page>)
    requires Distinct(Paths(pages))
    ensures |ReplacedAll(pages, mods)| == |pages|
    ensures forall i :: 0 <= i < |pages| ==>
              ReplacedAll(pages, mods)[i] == Latest(pages[i], mods) && Latest(pages[i], mods).path == pages[i].path
    decreases |mods|
  {
    hide Replaced, Paths, Distinct;
    PathsDiffer(pages);
    if mods != [] {
      var n := |mods| - 1;
      PathsDiffer(ReplacedAll(pages, mods[..n]));
      ReplacedInOrder(pages, mods[..n]);
      ReplacedAt(ReplacedAll(pages, mods[..n]), mods[n]);
    }
  }

  /** The surviving pages in order, each as its last replacement has it, and then the added ones. */
  lemma PagesAfterPatch(c: Content, p: Patch)
    requires Distinct(Paths(c.pages))
    ensures var kept, pages := Survivors(c.pages, AsSet(p.removePages)), Patched(c, p).pages;
            && |pages| == |kept| + |p.addPages|
            && (forall i :: 0 <= i < |kept| ==> pages[i] == Latest(kept[i], p.modifyPages) && pages[i].path == kept[i].path)
            && pages[|kept|..] == p.addPages
  {
    hide Survivors, ReplacedAll;
    RemovedInOrder(c.pages, p.removePages);
    SurvivorsAre(c.pages, AsSet(p.removePages));
    ReplacedInOrder(Survivors(c.pages, AsSet(p.removePages)), p.modifyPages);
  }

  /** It would create authentication where the exclusions, put together, say "no auth" somewhere. */
  ghost predicate StaysOut(exclusions: seq<string>, e: Endpoint) {
    exclusions != [] && e.action == "create_auth" && Occurs(Join(exclusions, " "), "no auth")
  }

  /** Of all new endpoints those are kept that do not stay out, in their order. */
  ghost predicate Picked(exclusions: seq<string>, all: seq<Endpoint>, kept: seq<Endpoint>) {
    if all == [] then kept == [] else
      var n, e := |all| - 1, all[|all| - 1];
      if StaysOut(exclusions, e) then Picked(exclusions, all[..n], kept)
      else kept != [] && kept[|kept| - 1] == e && Picked(exclusions, all[..n], kept[..|kept| - 1])
  }

  lemma {:induction false} EndpointsAdded(exclusions: seq<string>, endpoints: seq<Endpoint>)
    ensures Picked(exclusions, endpoints, Admitted(exclusions, endpoints))
    decreases |endpoints|
  {
    hide Contains, Join;
    ContainsMeans(Join(exclusions, " "), "no auth");
    if endpoints != [] {
      var n := |endpoints| - 1;
      var front := Admitted(exclusions, endpoints[..n]);
      EndpointsAdded(exclusions, endpoints[..n]);
      assert StaysOut(exclusions, endpoints[n]) <==> exclusions != [] && Excluded(exclusions, endpoints[n]);
      if StaysOut(exclusions, endpoints[n]) {
        assert Admitted(exclusions, endpoints) == front + [] == front;
      } else {
        assert Admitted(exclusions, endpoints) == front + [endpoints[n]];
        assert (front + [endpoints[n]])[..|front|] == front;
      }
    }
  }

  /** The fields of a patched plan other than its pages, one by one. */
  lemma FieldsAfterPatch(c: Content, p: Patch)
    ensures var q := Patched(c, p);
            && q.appType == c.appType && q.exclusions == c.exclusions
            && (p.authStrategy == "" ==> q.authStrategy == c.authStrategy)
            && (p.authStrategy != "" ==> q.authStrategy == p.authStrategy)
            && (p.layout.None? ==> q.layout == c.layout) && (p.layout.Some? ==> q.layout == p.layout)
            && q.tables == c.tables + p.addTables && q.webhooks == c.webhooks + p.addWebhooks && q.tasks == c.tasks + p.addTasks
            && |c.endpoints| <= |q.endpoints| && q.endpoints[..|c.endpoints|] == c.endpoints
            && Picked(c.exclusions, p.addEndpoints, q.endpoints[|c.endpoints|..])
            && (p.design.None? ==> q.design == c.design) && (p.design.Some? && c.design.None? ==> q.design == p.design)
            && (p.design.Some? && c.design.Some? ==> q.design.Some? && DesignGrew(c.design.value, p.design.value, q.design.value))
  {
    hide Admitted, Contains, Join, Excluded, WithoutAll, ReplacedAll, Picked, MergedDesign, DesignGrew;
    EndpointsAdded(c.exclusions, p.addEndpoints);
    if p.design.Some? && c.design.Some? {
      MergeGrows(c.design.value, p.design.value);
    }
  }

  /** A design merged with an update: colours and components entry by entry, settings only if they are given. */
  ghost predicate DesignGrew(d: Design, u: Design, q: Design) {
    && (d.colors.None? ==> q.colors.None?)
    && (d.colors.Some? ==> q.colors.Some? && MapGrew(d.colors.value, if u.colors.Some? then u.colors.value else map[], q.colors.value))
    && q.typography == (if u.typography.Some? then u.typography else d.typography)
    && q.spacing == (if u.spacing == "" then d.spacing else u.spacing)
    && q.radius == (if u.radius == "" then d.radius else u.radius)
    && q.darkMode == u.darkMode
    && (u.components.None? ==> q.components == d.components)
    && (u.components.Some? ==>
          q.components.Some? && MapGrew(if d.components.Some? then d.components.value else map[], u.components.value, q.components.value))
  }

  ghost predicate MapGrew(m: map<string, string>, more: map<string, string>, all: map<string, string>) {
    && all.Keys == m.Keys + more.Keys
    && forall k :: k in all ==> all[k] == if k in more then more[k] else m[k]
  }

  lemma MergeGrows(d: Design, u: Design)
    ensures DesignGrew(d, u, MergedDesign(d, u))
  {
  }

  /** What a plan without errors is, spelt out. */
  lemma ValidPlans(c: Content)
    ensures Valid(c) <==>
              && c.appType != ""
              && (forall i, j :: 0 <= i < j < |c.pages| ==> c.pages[i].path != c.pages[j].path)
              && (exists i :: 0 <= i < |c.pages| && c.pages[i].path == "/")
              && (c.design.Some? ==>
                    && c.design.value.colors.Some?
                    && var colors := c.design.value.colors.value;
                       "primary" in colors && colors["primary"] != "" && "bg" in colors && colors["bg"] != "")
              && (forall e :: e in c.endpoints ==>
                    && e.path != ""
                    && (e.action == "create_api" || e.action == "create_auth" || e.action == "create_websocket"
                        || e.action == "create_stream" || e.action == "create_upload"))
              && forall t :: t in c.tables ==> TableFits(t)
  {
    PathsDiffer(c.pages);
    assert "/" in Paths(c.pages) <==> exists i :: 0 <= i < |c.pages| && c.pages[i].path == "/" by {
      if i :| 0 <= i < |c.pages| && c.pages[i].path == "/" {
        assert Paths(c.pages)[i] == "/";
      }
    }
    hide Paths, Distinct, ValidTable, TableFits;
    forall t ensures ValidTable(t) <==> TableFits(t) {
      ValidTables(t);
    }
  }

  /** A table has a name, no column twice, and, if any, a column that is not one of the system's. */
  predicate TableFits(t: Table) {
    && t.name != "" && (forall i, j :: 0 <= i < j < |t.columns| ==> t.columns[i] != t.columns[j])
    && (t.columns == [] || exists c :: c in t.columns && c != "id" && c != "created_at" && c != "updated_at")
  }

  lemma ValidTables(t: Table)
    ensures ValidTable(t) <==> TableFits(t)
  {
    assert forall c :: SystemColumn(c) <==> c == "id" || c == "created_at" || c == "updated_at";
  }

  // When a patched plan is valid.

  /** The pages that stay and the pages that come have different paths, and one of them is the home page. */
  predicate PagesFit(c: Content, p: Patch) {
    var kept := (set page | page in c.pages :: page.path) - AsSet(p.removePages);
    var added := Paths(p.addPages);
    && Distinct(added)
    && (forall path :: path in added ==> path !in kept)
    && ("/" in kept || "/" in added)
  }

  /** No colour that the plan needs is blanked; a first design system is complete. */
  predicate DesignFits(c: Content, p: Patch) {
    p.design.None? || (
      var u := Colors(p.design.value);
      if c.design.None? then Named(u, "primary") && Named(u, "bg")
      else ("primary" in u ==> u["primary"] != "") && ("bg" in u ==> u["bg"] != ""))
  }

  predicate Fits(c: Content, p: Patch) {
    && PagesFit(c, p)
    && DesignFits(c, p)
    && (forall e :: e in p.addEndpoints && !(c.exclusions != [] && Excluded(c.exclusions, e)) ==> ValidEndpoint(e))
    && forall t :: t in p.addTables ==> ValidTable(t)
  }

  lemma DistinctAppend(a: seq<string>, b: seq<string>)
    ensures Distinct(a + b) <==> Distinct(a) && Distinct(b) && forall x :: x in b ==> x !in a
  {
    if Distinct(a + b) {
      forall i, j | 0 <= i < j < |a| ensures a[i] != a[j] {
        assert (a + b)[i] != (a + b)[j];
      }
      forall i, j | 0 <= i < j < |b| ensures b[i] != b[j] {
        assert (a + b)[|a| + i] != (a + b)[|a| + j];
      }
      forall x | x in b ensures x !in a {
        var j :| 0 <= j < |b| && b[j] == x;
        forall i | 0 <= i < |a| ensures a[i] != x {
          assert (a + b)[i] != (a + b)[|a| + j];
        }
      }
    }
    if Distinct(a) && Distinct(b) && forall x :: x in b ==> x !in a {
      forall i, j | 0 <= i < j < |a + b| ensures (a + b)[i] != (a + b)[j] {
        assert j >= |a| ==> b[j - |a|] in b;
      }
    }
  }

  lemma PagesFitMeans(c: Content, p: Patch)
    requires Distinct(Paths(c.pages))
    ensures var paths := Paths(Patched(c, p).pages);
            Distinct(paths) && "/" in paths <==> PagesFit(c, p)
  {
    hide Survivors, ReplacedAll, WithoutAll;
    PagesAfterPatch(c, p);
    var kept, pages := Survivors(c.pages, AsSet(p.removePages)), Patched(c, p).pages;
    SurvivorsAre(c.pages, AsSet(p.removePages));
    assert Paths(pages) == Paths(kept) + Paths(p.addPages);
    DistinctAppend(Paths(kept), Paths(p.addPages));
    var stay := (set page | page in c.pages :: page.path) - AsSet(p.removePages);
    forall path ensures path in Paths(kept) <==> path in stay {
      if path in Paths(kept) {
        var i :| 0 <= i < |kept| && Paths(kept)[i] == path;
        assert kept[i] in c.pages;
      }
      if path in stay {
        var page :| page in c.pages && page.path == path;
        assert page in kept;
        var i :| 0 <= i < |kept| && kept[i] == page;
        assert Paths(kept)[i] == path;
      }
    }
  }

  lemma {:induction false} AdmittedAre(exclusions: seq<string>, endpoints: seq<Endpoint>)
    ensures forall e :: e in Admitted(exclusions, endpoints)
              <==> e in endpoints && !(exclusions != [] && Excluded(exclusions, e))
    decreases |endpoints|
  {
    hide Excluded;
    if exclusions != [] && endpoints != [] {
      var n := |endpoints| - 1;
      AdmittedAre(exclusions, endpoints[..n]);
      forall e ensures e in endpoints <==> e in endpoints[..n] || e == endpoints[n] {
        assert endpoints == endpoints[..n] + [endpoints[n]];
      }
    }
  }

  /**
   Applied to a plan without errors, a patch never writes to a nil map, and the patched plan is without errors
   exactly when the patch fits.
   */
  lemma PatchKeepsValid(c: Content, p: Patch)
    requires Valid(c)
    ensures !Panics(c, p)
    ensures Valid(Patched(c, p)) <==> Fits(c, p)
  {
    hide PagesFit, Admitted, Excluded, Distinct, ValidEndpoint, ValidTable, WithoutAll, ReplacedAll;
    PagesFitMeans(c, p);
    AdmittedAre(c.exclusions, p.addEndpoints);
    DesignFitsMeans(c, p);
    var q := Patched(c, p);
    assert forall e :: e in q.endpoints <==> e in c.endpoints || e in Admitted(c.exclusions, p.addEndpoints);
    assert forall t :: t in q.tables <==> t in c.tables || t in p.addTables;
  }

  lemma DesignFitsMeans(c: Content, p: Patch)
    requires c.design.Some? ==> ValidDesign(c.design.value)
    ensures (Patched(c, p).design.Some? ==> ValidDesign(Patched(c, p).design.value)) <==> DesignFits(c, p)
  {
  }

  /** Removing the home page and adding nothing leaves a plan that no longer passes. */
  lemma HomePageExample(c: Content, p: Patch)
    requires Valid(c) && "/" in p.removePages && "/" !in Paths(p.addPages)
    ensures !Valid(Patched(c, p))
  {
    PatchKeepsValid(c, p);
  }
}
