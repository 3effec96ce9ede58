/**
 * The activation-time conflict check (class WC_Review_Reply_API_Conflict_Checker)
 * and the load-time gate wc_review_reply_api_can_initialize.
 *
 * The checker's list of conflicts is a field that each check appends to, in the
 * order check_conflicts_on_activation runs them; activation succeeds exactly when
 * the list stays empty. What the checks read from WordPress and PHP becomes an
 * Environment value: whether WooCommerce's class and WC() exist, whether the REST
 * server is available and which routes it holds, the active_plugins option, and
 * the outcome of the two version_compare calls.
 */
module Activation {
  import opened Wrappers

  const Namespace := "wc-review-api/v1"
  const ApiClass := "WC_Review_Reply_API"
  const RequiredPhp := "7.4"
  const RequiredWp := "5.0"

  datatype ConflictType = Dependency | NamespaceClash | PluginClash | PhpTooOld | WordPressTooOld

  /** One entry of $this->conflicts: its 'type', its 'plugin' when it has one, its 'message'. */
  datatype Conflict = Conflict(kind: ConflictType, plugin: Option<string>, message: string)

  /** The first element of an array callback: an object (with its class) or something else. */
  datatype Receiver = ObjectOf(className: string) | NotAnObject

  /** A route handler's 'callback' entry: unset, not an array, or an array callback. */
  datatype Callback = Unset | NotArray | ArrayCallback(receiver: Receiver)

  /** One entry of the REST server's route table: the route and its handlers' callbacks. */
  datatype Route = Route(path: string, handlers: seq<Callback>)

  datatype KnownPlugin = KnownPlugin(name: string, message: string)

  datatype Environment = Environment(
    wooCommerceClassExists: bool,
    wcFunctionExists: bool,
    restServerAvailable: bool,
    routes: seq<Route>,
    activePlugins: seq<string>,
    phpVersion: string,
    phpBelowRequired: bool,   // version_compare(PHP_VERSION, '7.4', '<')
    wpVersion: string,
    wpBelowRequired: bool)    // version_compare(get_bloginfo('version'), '5.0', '<')

  predicate AllOfKind(cs: seq<Conflict>, kind: ConflictType)
  {
    forall i :: 0 <= i < |cs| ==> cs[i].kind == kind
  }

  /** The position of each kind's check in check_conflicts_on_activation. */
  function CheckOrder(kind: ConflictType): nat
  {
    match kind
    case Dependency => 0
    case NamespaceClash => 1
    case PluginClash => 2
    case PhpTooOld => 3
    case WordPressTooOld => 4
  }

  /** Conflicts listed in the order of the checks that found them. */
  predicate InCheckOrder(cs: seq<Conflict>)
  {
    forall i, j :: 0 <= i < j < |cs| ==> CheckOrder(cs[i].kind) <= CheckOrder(cs[j].kind)
  }

  // ---------------------------------------------------------------------------
  // check_woocommerce

  const WooMissing := Conflict(Dependency, Some("WooCommerce"),
    "WooCommerce is required for this plugin to work. Please install and activate WooCommerce first.")
  const WooNotInitialized := Conflict(Dependency, Some("WooCommerce"),
    "WooCommerce is active but not fully initialized. Please try deactivating and reactivating WooCommerce.")

  function WooCommerceConflicts(classExists: bool, wcFunctionExists: bool): (cs: seq<Conflict>)
    ensures cs == [] <==> classExists && wcFunctionExists
    ensures |cs| <= 1
    ensures AllOfKind(cs, Dependency)
  {
    if !classExists then [WooMissing]
    else if !wcFunctionExists then [WooNotInitialized]
    else []
  }

  // ---------------------------------------------------------------------------
  // check_rest_api_namespace

  const NamespaceRoute := "/" + Namespace
  const NamespacePrefix := NamespaceRoute + "/"

  /** strpos($route, '/wc-review-api/v1/') === 0 || $route === '/wc-review-api/v1' */
  predicate IsNamespaceRoute(route: string)
  {
    NamespacePrefix <= route || route == NamespaceRoute
  }

  /** The namespace test accepts the bare namespace route and the routes under it, and nothing else. */
  lemma NamespaceRouteShape(route: string)
    ensures IsNamespaceRoute(route) <==>
              && |route| >= 17
              && route[..17] == "/wc-review-api/v1"
              && (|route| == 17 || route[17] == '/')
  {
    if |route| >= 18 && route[..17] == "/wc-review-api/v1" && route[17] == '/' {
      assert route[..18] == NamespacePrefix;
    }
  }

  /** A handler belongs to another plugin when its callback is a method of an object of some other, named class. */
  predicate ForeignHandler(cb: Callback)
  {
    cb.ArrayCallback? && cb.receiver.ObjectOf?
    && cb.receiver.className != ApiClass && cb.receiver.className != ""
  }

  /** The route, once for each foreign handler it has (the inner foreach). */
  function RouteHits(path: string, handlers: seq<Callback>): (hits: seq<string>)
    ensures |hits| <= |handlers|
    ensures forall i :: 0 <= i < |hits| ==> hits[i] == path
  {
    if handlers == [] then []
    else (if ForeignHandler(handlers[0]) then [path] else []) + RouteHits(path, handlers[1..])
  }

  lemma {:induction false} RouteHitsAppend(path: string, a: seq<Callback>, b: seq<Callback>)
    ensures RouteHits(path, a + b) == RouteHits(path, a) + RouteHits(path, b)
    decreases |a|
  {
    if a != [] {
      assert (a + b)[0] == a[0] && (a + b)[1..] == a[1..] + b;
      RouteHitsAppend(path, a[1..], b);
    } else {
      assert a + b == b;
    }
  }

  /** A route has no hits exactly when none of its handlers is foreign. */
  lemma {:induction false} RouteHitsEmpty(path: string, handlers: seq<Callback>)
    ensures RouteHits(path, handlers) == [] <==> forall h :: h in handlers ==> !ForeignHandler(h)
    decreases |handlers|
  {
    if handlers != [] {
      RouteHitsEmpty(path, handlers[1..]);
      assert forall h :: h in handlers ==> h == handlers[0] || h in handlers[1..];
    }
  }

  /** $conflicting_routes: the namespace routes, each once per foreign handler, in route-table order. */
  function ConflictingRoutes(routes: seq<Route>): (rs: seq<string>)
    ensures forall i :: 0 <= i < |rs| ==> IsNamespaceRoute(rs[i])
  {
    if routes == [] then []
    else (if IsNamespaceRoute(routes[0].path) then RouteHits(routes[0].path, routes[0].handlers) else [])
         + ConflictingRoutes(routes[1..])
  }

  lemma {:induction false} ConflictingRoutesAppend(a: seq<Route>, b: seq<Route>)
    ensures ConflictingRoutes(a + b) == ConflictingRoutes(a) + ConflictingRoutes(b)
    decreases |a|
  {
    if a != [] {
      assert (a + b)[0] == a[0] && (a + b)[1..] == a[1..] + b;
      ConflictingRoutesAppend(a[1..], b);
    } else {
      assert a + b == b;
    }
  }

  /** No route is reported exactly when no namespace route has a foreign handler. */
  lemma {:induction false} ConflictingRoutesEmpty(routes: seq<Route>)
    ensures ConflictingRoutes(routes) == [] <==>
              forall i, h :: 0 <= i < |routes| && IsNamespaceRoute(routes[i].path) && h in routes[i].handlers
                ==> !ForeignHandler(h)
    decreases |routes|
  {
    if routes != [] {
      ConflictingRoutesEmpty(routes[1..]);
      RouteHitsEmpty(routes[0].path, routes[0].handlers);
      assert forall i :: 1 <= i < |routes| ==> routes[i] == routes[1..][i - 1];
    }
  }

  /** implode(', ', $routes) */
  function Join(routes: seq<string>): string
  {
    if routes == [] then ""
    else if |routes| == 1 then routes[0]
    else routes[0] + ", " + Join(routes[1..])
  }

  /** The single 'namespace' conflict, naming at most the first three conflicting routes. */
  function NamespaceConflict(routes: seq<string>): Conflict
  {
    Conflict(NamespaceClash, None, NamespaceMessage(routes))
  }

  function NamespaceMessage(routes: seq<string>): string
  {
    "REST API namespace conflict detected. The route namespace \"wc-review-api/v1\" may already be in use by another plugin. Conflicting routes: "
    + Join(if |routes| <= 3 then routes else routes[..3])
  }

  /** At most one 'namespace' conflict, naming the first three conflicting routes. */
  function NamespaceConflicts(restServerAvailable: bool, routes: seq<Route>): (cs: seq<Conflict>)
    ensures cs == [] <==> !restServerAvailable || ConflictingRoutes(routes) == []
    ensures cs != [] ==> cs == [NamespaceConflict(ConflictingRoutes(routes))]
    ensures |cs| <= 1 && AllOfKind(cs, NamespaceClash)
  {
    if !restServerAvailable || ConflictingRoutes(routes) == [] then []
    else [NamespaceConflict(ConflictingRoutes(routes))]
  }

  // ---------------------------------------------------------------------------
  // check_conflicting_plugins

  /** $known_conflicts: plugin basename to display name and message. */
  const KnownConflicts: map<string, KnownPlugin> := map[
    "rest-api/rest-api.php" :=
      KnownPlugin("REST API (Custom)",
                  "A custom REST API plugin may conflict with this plugin's REST endpoints."),
    "woocommerce-review-reminder/woocommerce-review-reminder.php" :=
      KnownPlugin("WooCommerce Review Reminder",
                  "This plugin may interfere with review reply functionality."),
    "disable-json-api/disable-json-api.php" :=
      KnownPlugin("Disable REST API",
                  "This plugin disables the REST API which is required for this plugin to function."),
    "disable-json-api/class-disable-json-api.php" :=
      KnownPlugin("Disable JSON API",
                  "This plugin disables the REST API which is required for this plugin to function.")
  ]

  function PluginConflict(p: KnownPlugin): Conflict
  {
    Conflict(PluginClash, Some(p.name), p.message)
  }

  /** One 'plugin' conflict for each active plugin in the table, in active_plugins order. */
  function PluginConflicts(active: seq<string>): (cs: seq<Conflict>)
    ensures |cs| <= |active|
    ensures AllOfKind(cs, PluginClash)
  {
    if active == [] then []
    else (if active[0] in KnownConflicts then [PluginConflict(KnownConflicts[active[0]])] else [])
         + PluginConflicts(active[1..])
  }

  /** The list grows plugin by plugin: appending active plugins appends their conflicts. */
  lemma {:induction false} PluginConflictsAppend(a: seq<string>, b: seq<string>)
    ensures PluginConflicts(a + b) == PluginConflicts(a) + PluginConflicts(b)
    decreases |a|
  {
    if a != [] {
      assert (a + b)[0] == a[0] && (a + b)[1..] == a[1..] + b;
      PluginConflictsAppend(a[1..], b);
    } else {
      assert a + b == b;
    }
  }

  /** No plugin conflict exactly when no active plugin is a known one. */
  lemma {:induction false} PluginConflictsEmpty(active: seq<string>)
    ensures PluginConflicts(active) == [] <==> forall p :: p in active ==> p !in KnownConflicts
    decreases |active|
  {
    if active != [] {
      PluginConflictsEmpty(active[1..]);
      assert forall p :: p in active ==> p == active[0] || p in active[1..];
    }
  }

  // ---------------------------------------------------------------------------
  // check_php_version and check_wp_version

  function PhpConflicts(version: string, below: bool): (cs: seq<Conflict>)
    ensures cs == [] <==> !below
    ensures |cs| <= 1 && AllOfKind(cs, PhpTooOld)
  {
    if !below then []
    else [Conflict(PhpTooOld, None,
                   "This plugin requires PHP " + RequiredPhp + " or higher. Your server is running PHP "
                   + version + ". Please update PHP.")]
  }

  function WpConflicts(version: string, below: bool): (cs: seq<Conflict>)
    ensures cs == [] <==> !below
    ensures |cs| <= 1 && AllOfKind(cs, WordPressTooOld)
  {
    if !below then []
    else [Conflict(WordPressTooOld, None,
                   "This plugin requires WordPress " + RequiredWp + " or higher. Your site is running WordPress "
                   + version + ". Please update WordPress.")]
  }

  // ---------------------------------------------------------------------------
  // check_conflicts_on_activation

  /** The conflict list check_conflicts_on_activation accumulates, check by check. */
  function ActivationConflicts(env: Environment): (cs: seq<Conflict>)
    ensures InCheckOrder(cs)
    ensures |cs| <= 4 + |env.activePlugins|
  {
    WooCommerceConflicts(env.wooCommerceClassExists, env.wcFunctionExists)
    + NamespaceConflicts(env.restServerAvailable, env.routes)
    + PluginConflicts(env.activePlugins)
    + PhpConflicts(env.phpVersion, env.phpBelowRequired)
    + WpConflicts(env.wpVersion, env.wpBelowRequired)
  }

  /** Activation goes through exactly when every individual check passes. */
  lemma ActivationSucceedsIff(env: Environment)
    ensures ActivationConflicts(env) == [] <==>
              && env.wooCommerceClassExists && env.wcFunctionExists
              && (!env.restServerAvailable ||
                  forall i, h ::
                    (0 <= i < |env.routes| && IsNamespaceRoute(env.routes[i].path) && h in env.routes[i].handlers)
                    ==> !ForeignHandler(h))
              && (forall p :: p in env.activePlugins ==> p !in KnownConflicts)
              && !env.phpBelowRequired && !env.wpBelowRequired
  {
    ConflictingRoutesEmpty(env.routes);
    PluginConflictsEmpty(env.activePlugins);
  }

  /** A known conflicting plugin among the active ones always blocks activation. */
  lemma KnownPluginBlocksActivation(env: Environment, p: string)
    requires p in env.activePlugins && p in KnownConflicts
    ensures ActivationConflicts(env) != []
    ensures PluginConflict(KnownConflicts[p]) in ActivationConflicts(env)
  {
    var i :| 0 <= i < |env.activePlugins| && env.activePlugins[i] == p;
    var a := env.activePlugins;
    assert a == a[..i] + [p] + a[i + 1..];
    PluginConflictsAppend(a[..i] + [p], a[i + 1..]);
    PluginConflictsAppend(a[..i], [p]);
    var pc := PluginConflicts(a);
    assert PluginConflict(KnownConflicts[p]) in pc;
    var cs := ActivationConflicts(env);
    var pre := WooCommerceConflicts(env.wooCommerceClassExists, env.wcFunctionExists)
               + NamespaceConflicts(env.restServerAvailable, env.routes);
    var post := PhpConflicts(env.phpVersion, env.phpBelowRequired) + WpConflicts(env.wpVersion, env.wpBelowRequired);
    assert cs == pre + pc + post;
  }

  /**
   * wc_review_reply_api_can_initialize: false without WooCommerce, false while
   * the conflicts transient holds a non-empty list, true otherwise.
   */
  function CanInitialize(wooCommerceClassExists: bool, storedConflicts: Option<seq<Conflict>>): (ok: bool)
    ensures ok <==> wooCommerceClassExists && (storedConflicts.None? || storedConflicts.value == [])
  {
    if !wooCommerceClassExists then false
    else if storedConflicts.Some? && storedConflicts.value != [] then false
    else true
  }

  /**
   * The transient after an activation attempt holds the conflicts when there were
   * any and is absent otherwise; the plugin then initializes exactly when the
   * activation went through.
   */
  lemma InitializeAfterActivation(env: Environment)
    ensures var cs := ActivationConflicts(env);
            CanInitialize(env.wooCommerceClassExists, if cs == [] then None else Some(cs)) <==> cs == []
  {
    var cs := ActivationConflicts(env);
    if !env.wooCommerceClassExists {
      assert cs[0] == WooMissing;
    }
  }

  /** The inner foreach of the route scan: the route once per handler that belongs to another class. */
  method ScanHandlers(path: string, handlers: seq<Callback>) returns (hits: seq<string>)
    ensures hits == RouteHits(path, handlers)
  {
    hits := [];
    for j := 0 to |handlers|
      invariant hits == RouteHits(path, handlers[..j])
    {
      if ForeignHandler(handlers[j]) {
        hits := hits + [path];
      }
      RouteHitsAppend(path, handlers[..j], [handlers[j]]);
      assert handlers[..j + 1] == handlers[..j] + [handlers[j]];
    }
    assert handlers[..|handlers|] == handlers;
  }

  /**
   * The route scan of check_rest_api_namespace: for each route in the namespace,
   * the route once per handler whose callback is a method of another class.
   */
  method ScanRoutes(routes: seq<Route>) returns (conflicting: seq<string>)
    ensures conflicting == ConflictingRoutes(routes)
  {
    conflicting := [];
    for i := 0 to |routes|
      invariant conflicting == ConflictingRoutes(routes[..i])
    {
      var route := routes[i];
      if IsNamespaceRoute(route.path) {
        var hits := ScanHandlers(route.path, route.handlers);
        conflicting := conflicting + hits;
      }
      ConflictingRoutesAppend(routes[..i], [route]);
      assert routes[..i + 1] == routes[..i] + [route];
    }
    assert routes[..|routes|] == routes;
  }

  /** The checker object: its conflict list is rebuilt by every activation attempt. */
  class ConflictChecker {
    var conflicts: seq<Conflict>
    const pluginFile: string

    constructor (pluginFile: string)
      ensures conflicts == [] && this.pluginFile == pluginFile
    {
      conflicts := [];
      this.pluginFile := pluginFile;
    }

    /** Runs the five checks in order; true exactly when none of them found a conflict. */
    method CheckConflictsOnActivation(env: Environment) returns (activated: bool)
      modifies this
      ensures conflicts == ActivationConflicts(env)
      ensures activated <==> conflicts == []
    {
      conflicts := [];
      CheckWooCommerce(env.wooCommerceClassExists, env.wcFunctionExists);
      assert conflicts == WooCommerceConflicts(env.wooCommerceClassExists, env.wcFunctionExists);
      CheckRestApiNamespace(env.restServerAvailable, env.routes);
      CheckConflictingPlugins(env.activePlugins);
      CheckPhpVersion(env.phpVersion, env.phpBelowRequired);
      CheckWpVersion(env.wpVersion, env.wpBelowRequired);
      activated := conflicts == [];
    }

    method CheckWooCommerce(classExists: bool, wcFunctionExists: bool)
      modifies this
      ensures conflicts == old(conflicts) + WooCommerceConflicts(classExists, wcFunctionExists)
    {
      if !classExists {
        conflicts := conflicts + [WooMissing];
      } else if !wcFunctionExists {
        conflicts := conflicts + [WooNotInitialized];
      }
    }

    method CheckRestApiNamespace(restServerAvailable: bool, routes: seq<Route>)
      modifies this
      ensures conflicts == old(conflicts) + NamespaceConflicts(restServerAvailable, routes)
    {
      if !restServerAvailable {
        return;
      }
      var conflicting := ScanRoutes(routes);
      if conflicting != [] {
        conflicts := conflicts + [NamespaceConflict(conflicting)];
      }
    }

    method CheckConflictingPlugins(activePlugins: seq<string>)
      modifies this
      ensures conflicts == old(conflicts) + PluginConflicts(activePlugins)
    {
      var found: seq<KnownPlugin> := [];
      for i := 0 to |activePlugins|
        invariant conflicts == old(conflicts)
        invariant seq(|found|, k requires 0 <= k < |found| => PluginConflict(found[k]))
                  == PluginConflicts(activePlugins[..i])
      {
        var plugin := activePlugins[i];
        if plugin in KnownConflicts {
          found := found + [KnownConflicts[plugin]];
        }
        PluginConflictsAppend(activePlugins[..i], [plugin]);
        assert activePlugins[..i + 1] == activePlugins[..i] + [plugin];
      }
      assert activePlugins[..|activePlugins|] == activePlugins;
      for j := 0 to |found|
        invariant conflicts == old(conflicts) + seq(j, k requires 0 <= k < j => PluginConflict(found[k]))
      {
        conflicts := conflicts + [PluginConflict(found[j])];
      }
    }

    method CheckPhpVersion(version: string, below: bool)
      modifies this
      ensures conflicts == old(conflicts) + PhpConflicts(version, below)
    {
      if below {
        conflicts := conflicts + PhpConflicts(version, below);
      }
    }

    method CheckWpVersion(version: string, below: bool)
      modifies this
      ensures conflicts == old(conflicts) + WpConflicts(version, below)
    {
      if below {
        conflicts := conflicts + WpConflicts(version, below);
      }
    }
  }
}
