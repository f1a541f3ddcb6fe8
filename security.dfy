/** The URL access rules of the two security configurations: an ordered list
    of (verb, path patterns, requirement) rules, decided by the first rule
    that matches, with Ant-style path patterns. */
module Security {
  import opened Errors
  import opened Seqs

  datatype HttpMethod = GET | POST | PUT | DELETE | PATCH | HEAD | OPTIONS

  /** One pattern segment: a literal, or `*`, which stands for exactly one path segment. */
  datatype Seg = Lit(text: string) | AnySeg

  /** A path pattern: its segments, and whether it ends in a double-star segment, which stands
      for zero or more further segments. */
  datatype Pattern = Pattern(segs: seq<Seg>, rest: bool)

  /** A pattern of literal segments only. */
  function Exactly(path: seq<string>): (p: Pattern)
    ensures |p.segs| == |path| && !p.rest
    ensures forall i :: 0 <= i < |path| ==> p.segs[i] == Lit(path[i])
  {
    Pattern(seq(|path|, i requires 0 <= i < |path| => Lit(path[i])), false)
  }

  /** The pattern `prefix` followed by a double-star segment. */
  function Under(prefix: seq<string>): (p: Pattern)
    ensures |p.segs| == |prefix| && p.rest
    ensures forall i :: 0 <= i < |prefix| ==> p.segs[i] == Lit(prefix[i])
  {
    Pattern(Exactly(prefix).segs, true)
  }

  predicate SegMatches(g: Seg, s: string) {
    g.AnySeg? || g.text == s
  }

  /** Matching a request path, given as its list of segments, against pattern segments. */
  function MatchSegs(segs: seq<Seg>, rest: bool, path: seq<string>): bool {
    if |segs| == 0 then rest || |path| == 0
    else |path| > 0 && SegMatches(segs[0], path[0]) && MatchSegs(segs[1..], rest, path[1..])
  }

  predicate Matches(p: Pattern, path: seq<string>) {
    MatchSegs(p.segs, p.rest, path)
  }

  /** A path matches when every pattern segment matches the path segment in
      its place, and the path has exactly as many segments as the pattern, or
      at least as many when the pattern ends in a double star. */
  lemma {:induction false} MatchSegsIff(segs: seq<Seg>, rest: bool, path: seq<string>)
    ensures MatchSegs(segs, rest, path) <==>
      && (if rest then |path| >= |segs| else |path| == |segs|)
      && forall i :: 0 <= i < |segs| ==> SegMatches(segs[i], path[i])
  {
    if |segs| > 0 && |path| > 0 {
      MatchSegsIff(segs[1..], rest, path[1..]);
      assert forall i :: 1 <= i < |segs| && i < |path| ==> segs[1..][i - 1] == segs[i] && path[1..][i - 1] == path[i];
    }
  }

  /** The root followed by a double star matches every path, the root included. */
  lemma EverythingUnderRoot(path: seq<string>)
    ensures Matches(Under([]), path)
  {
  }

  /** `*` stands for exactly one segment. */
  lemma OrderStatusPattern()
    ensures Matches(ORDER_STATUS, ["order", "42", "status"])
    ensures !Matches(ORDER_STATUS, ["order", "42", "x", "status"])
    ensures !Matches(ORDER_STATUS, ["order", "status"])
  {
    MatchSegsIff(ORDER_STATUS.segs, false, ["order", "42", "status"]);
  }

  // ---- Rules and decisions -------------------------------------------------------

  /** Which requests a rule applies to: all of them, or those with the given
      method (any method when absent) whose path matches one of the patterns. */
  datatype Matcher = AnyRequest | Requests(verb: Option<HttpMethod>, patterns: seq<Pattern>)

  datatype Requirement = Public | Authenticated | HasRole(role: string)

  datatype Rule = Rule(matcher: Matcher, requirement: Requirement)

  datatype Decision = Granted | NeedsLogin | Forbidden

  predicate MatcherApplies(m: Matcher, verb: HttpMethod, path: seq<string>) {
    match m
    case AnyRequest => true
    case Requests(only, patterns) =>
      (only.None? || only.value == verb) && exists k :: 0 <= k < |patterns| && Matches(patterns[k], path)
  }

  function AppliesTo(verb: HttpMethod, path: seq<string>): Rule -> bool {
    (r: Rule) => MatcherApplies(r.matcher, verb, path)
  }

  /** The index of the rule that decides a request: the first that applies. */
  function FirstMatch(rules: seq<Rule>, verb: HttpMethod, path: seq<string>): (r: Option<nat>)
    ensures r.Some? ==> r.value < |rules| && MatcherApplies(rules[r.value].matcher, verb, path)
    ensures r.Some? ==> forall j :: 0 <= j < r.value ==> !MatcherApplies(rules[j].matcher, verb, path)
    ensures r.None? ==> forall j :: 0 <= j < |rules| ==> !MatcherApplies(rules[j].matcher, verb, path)
  {
    FindIndex(rules, AppliesTo(verb, path))
  }

  /** Whether a caller meets a requirement. The caller is the role of the
      logged-in user, or absent for an anonymous request. A role requirement
      compares the authority "ROLE_" + role with "ROLE_" + required. */
  function Permit(req: Requirement, caller: Option<string>): (d: Decision)
    ensures d == Granted <==> req.Public? || (caller.Some? && (req.Authenticated? || caller.value == req.role))
    ensures d == NeedsLogin <==> !req.Public? && caller.None?
  {
    match req
    case Public => Granted
    case Authenticated => if caller.Some? then Granted else NeedsLogin
    case HasRole(role) =>
      if caller.None? then NeedsLogin
      else
        assert ("ROLE_" + caller.value)[5..] == caller.value && ("ROLE_" + role)[5..] == role;
        if "ROLE_" + caller.value == "ROLE_" + role then Granted
      else Forbidden
  }

  /** The decision for a request: the requirement of the first matching rule;
      a request that no rule matches is refused. */
  function Decide(rules: seq<Rule>, verb: HttpMethod, path: seq<string>, caller: Option<string>): (d: Decision)
    ensures (forall j :: 0 <= j < |rules| ==> !MatcherApplies(rules[j].matcher, verb, path)) ==> d == Forbidden
    ensures d != Forbidden ==> exists k ::
      && 0 <= k < |rules| && MatcherApplies(rules[k].matcher, verb, path)
      && (forall j :: 0 <= j < k ==> !MatcherApplies(rules[j].matcher, verb, path))
      && d == Permit(rules[k].requirement, caller)
  {
    match FirstMatch(rules, verb, path)
    case None => Forbidden
    case Some(k) => Permit(rules[k].requirement, caller)
  }

  /** A rule that applies, after rules that do not, decides the request. */
  lemma DecidedBy(rules: seq<Rule>, verb: HttpMethod, path: seq<string>, caller: Option<string>, k: nat)
    requires k < |rules| && MatcherApplies(rules[k].matcher, verb, path)
    requires forall j :: 0 <= j < k ==> !MatcherApplies(rules[j].matcher, verb, path)
    ensures FirstMatch(rules, verb, path) == Some(k)
    ensures Decide(rules, verb, path, caller) == Permit(rules[k].requirement, caller)
  {
  }

  /** A rule applies through one of its patterns. */
  lemma RuleApplies(rules: seq<Rule>, k: nat, j: nat, verb: HttpMethod, path: seq<string>)
    requires k < |rules| && rules[k].matcher.Requests? && j < |rules[k].matcher.patterns|
    requires rules[k].matcher.verb.None? || rules[k].matcher.verb.value == verb
    requires Matches(rules[k].matcher.patterns[j], path)
    ensures MatcherApplies(rules[k].matcher, verb, path)
  {
  }

  /** A table that ends in an any-request rule gives every request a rule. */
  lemma EndsInAnyRequest(rules: seq<Rule>, verb: HttpMethod, path: seq<string>)
    requires |rules| > 0 && rules[|rules| - 1].matcher == AnyRequest
    ensures FirstMatch(rules, verb, path).Some?
  {
    assert MatcherApplies(rules[|rules| - 1].matcher, verb, path);
  }

  /** With only ADMIN role rules, more privilege never loses access:
      anonymous access implies STUDENT access implies ADMIN access. */
  lemma Monotone(rules: seq<Rule>, verb: HttpMethod, path: seq<string>)
    requires forall j :: 0 <= j < |rules| && rules[j].requirement.HasRole? ==> rules[j].requirement.role == "ADMIN"
    ensures Decide(rules, verb, path, None) == Granted ==> Decide(rules, verb, path, Some("STUDENT")) == Granted
    ensures Decide(rules, verb, path, Some("STUDENT")) == Granted ==> Decide(rules, verb, path, Some("ADMIN")) == Granted
  {
  }

  // ---- The two tables --------------------------------------------------------------

  const ORDER_STATUS := Pattern([Lit("order"), AnySeg, Lit("status")], false)
  const ORDER_OF_USER := Pattern([Lit("order"), Lit("user"), AnySeg], false)
  const MENU_ITEM := Pattern([Lit("menu"), AnySeg], false)

  const STATIC_PAGES: seq<Pattern> := [
    Exactly(["menu.html"]), Exactly(["admin.html"]), Exactly(["orders.html"]), Exactly(["index.html"]),
    Exactly(["login.html"]), Exactly(["register.html"]), Under(["css"]), Under(["js"]), Exactly(["favicon.ico"])]

  const ADMIN := HasRole("ADMIN")

  /** The rules that follow the first one, common to both configurations except rule 5. */
  function Table(first: Rule, adminPaths: seq<Pattern>): (rules: seq<Rule>)
    ensures |rules| == 11 && rules[0] == first && rules[10] == Rule(AnyRequest, Authenticated)
  {
    [ first,
      Rule(Requests(None, [Under(["auth"])]), Public),
      Rule(Requests(Some(GET), [Exactly(["menu"])]), Public),
      Rule(Requests(Some(POST), [Exactly(["order", "place"])]), Authenticated),
      Rule(Requests(Some(GET), [ORDER_OF_USER]), Authenticated),
      Rule(Requests(None, adminPaths), ADMIN),
      Rule(Requests(Some(PUT), [ORDER_STATUS]), ADMIN),
      Rule(Requests(Some(POST), [Exactly(["menu"])]), ADMIN),
      Rule(Requests(Some(PUT), [MENU_ITEM]), ADMIN),
      Rule(Requests(Some(DELETE), [MENU_ITEM]), ADMIN),
      Rule(AnyRequest, Authenticated) ]
  }

  /** SecurityConfig: the first rule lists the catch-all double-star
      pattern among the public paths. */
  const SECURITY_RULES := Table(Rule(Requests(None, [Under([])] + STATIC_PAGES), Public),
    [Under(["admin"]), Exactly(["order", "all"]), Exactly(["order", "pending"])])

  /** TestSecurityConfig: the same rules without the catch-all pattern and
      without the admin pages pattern. */
  const TEST_RULES := Table(Rule(Requests(None, STATIC_PAGES), Public),
    [Exactly(["order", "all"]), Exactly(["order", "pending"])])

  /** SecurityConfig as its later rules and the controller tests evidently
      intend it: the public list without the catch-all pattern. */
  const CORRECTED_RULES := Table(Rule(Requests(None, STATIC_PAGES), Public),
    [Under(["admin"]), Exactly(["order", "all"]), Exactly(["order", "pending"])])

  lemma TablesEndInAnyRequest(verb: HttpMethod, path: seq<string>)
    ensures FirstMatch(SECURITY_RULES, verb, path).Some?
    ensures FirstMatch(TEST_RULES, verb, path).Some?
    ensures FirstMatch(CORRECTED_RULES, verb, path).Some?
  {
    EndsInAnyRequest(SECURITY_RULES, verb, path);
    EndsInAnyRequest(TEST_RULES, verb, path);
    EndsInAnyRequest(CORRECTED_RULES, verb, path);
  }

  // ---- SecurityConfig as written ---------------------------------------------------

  /** Under SecurityConfig the first rule decides every request, so every
      request is let through whoever sends it, and the later rules (the ADMIN
      ones among them) are never reached. */
  lemma SecurityConfigGrantsEverything(verb: HttpMethod, path: seq<string>, caller: Option<string>)
    ensures FirstMatch(SECURITY_RULES, verb, path) == Some(0)
    ensures Decide(SECURITY_RULES, verb, path, caller) == Granted
  {
    var patterns := SECURITY_RULES[0].matcher.patterns;
    assert Matches(patterns[0], path);
    DecidedBy(SECURITY_RULES, verb, path, caller, 0);
  }

  /** The two requests the menu controller tests expect to be refused are
      let through by SecurityConfig as written. */
  lemma SecurityConfigAdmitsMenuWrites()
    ensures Decide(SECURITY_RULES, POST, ["menu"], Some("STUDENT")) == Granted
    ensures Decide(SECURITY_RULES, DELETE, ["menu", "1"], None) == Granted
  {
    SecurityConfigGrantsEverything(POST, ["menu"], Some("STUDENT"));
    SecurityConfigGrantsEverything(DELETE, ["menu", "1"], None);
  }

  // ---- The corrected table ---------------------------------------------------------

  /** No public page pattern matches a path that starts with a segment none of them has. */
  lemma StaticPagesMiss(path: seq<string>)
    requires |path| > 0 && path[0] != "css" && path[0] != "js"
    requires |path| > 1 || path[0] !in ["menu.html", "admin.html", "orders.html", "index.html", "login.html", "register.html", "favicon.ico"]
    ensures !MatcherApplies(TEST_RULES[0].matcher, GET, path)
    ensures forall m: HttpMethod :: !MatcherApplies(TEST_RULES[0].matcher, m, path) && !MatcherApplies(CORRECTED_RULES[0].matcher, m, path)
  {
    forall k | 0 <= k < |STATIC_PAGES|
      ensures !Matches(STATIC_PAGES[k], path)
    {
      MatchSegsIff(STATIC_PAGES[k].segs, STATIC_PAGES[k].rest, path);
    }
  }

  /** In the corrected table creating a menu item is for ADMIN only: a STUDENT
      is refused and an anonymous caller is sent to log in. */
  lemma CorrectedMenuPostAdminOnly(caller: Option<string>)
    ensures Decide(CORRECTED_RULES, POST, ["menu"], caller) == Granted <==> caller == Some("ADMIN")
    ensures Decide(CORRECTED_RULES, POST, ["menu"], Some("STUDENT")) == Forbidden
  {
    var path := ["menu"];
    StaticPagesMiss(path);
    assert !Matches(Under(["auth"]), path);
    assert !Matches(Under(["admin"]), path);
    RuleApplies(CORRECTED_RULES, 7, 0, POST, path);
    DecidedBy(CORRECTED_RULES, POST, path, caller, 7);
    DecidedBy(CORRECTED_RULES, POST, path, Some("STUDENT"), 7);
  }

  /** In the corrected table deleting a menu item needs a login and the ADMIN role. */
  lemma CorrectedMenuDeleteAdminOnly(id: string, caller: Option<string>)
    ensures Decide(CORRECTED_RULES, DELETE, ["menu", id], caller) == Granted <==> caller == Some("ADMIN")
    ensures Decide(CORRECTED_RULES, DELETE, ["menu", id], None) == NeedsLogin
  {
    var path := ["menu", id];
    StaticPagesMiss(path);
    assert !Matches(Under(["auth"]), path);
    assert !Matches(Under(["admin"]), path);
    RuleApplies(CORRECTED_RULES, 9, 0, DELETE, path);
    DecidedBy(CORRECTED_RULES, DELETE, path, caller, 9);
    DecidedBy(CORRECTED_RULES, DELETE, path, None, 9);
  }

  // ---- TestSecurityConfig ------------------------------------------------------------

  /** Reading the menu is public. */
  lemma TestMenuRead(caller: Option<string>)
    ensures Decide(TEST_RULES, GET, ["menu"], caller) == Granted
  {
    StaticPagesMiss(["menu"]);
    assert !Matches(Under(["auth"]), ["menu"]);
    RuleApplies(TEST_RULES, 2, 0, GET, ["menu"]);
    DecidedBy(TEST_RULES, GET, ["menu"], caller, 2);
  }

  /** Creating a menu item needs ADMIN. */
  lemma TestMenuCreate(caller: Option<string>)
    ensures Decide(TEST_RULES, POST, ["menu"], caller) == Permit(ADMIN, caller)
  {
    StaticPagesMiss(["menu"]);
    assert !Matches(Under(["auth"]), ["menu"]);
    RuleApplies(TEST_RULES, 7, 0, POST, ["menu"]);
    DecidedBy(TEST_RULES, POST, ["menu"], caller, 7);
  }

  /** A request for /menu/<id> is decided by rule k, the first whose method agrees. */
  lemma TestMenuItemRule(verb: HttpMethod, k: nat, id: string, caller: Option<string>)
    requires (verb == PUT && k == 8) || (verb == DELETE && k == 9)
    ensures Decide(TEST_RULES, verb, ["menu", id], caller) == Permit(ADMIN, caller)
  {
    StaticPagesMiss(["menu", id]);
    assert !Matches(Under(["auth"]), ["menu", id]);
    RuleApplies(TEST_RULES, k, 0, verb, ["menu", id]);
    DecidedBy(TEST_RULES, verb, ["menu", id], caller, k);
  }

  lemma TestMenuRules(id: string, caller: Option<string>)
    ensures Decide(TEST_RULES, GET, ["menu"], caller) == Granted
    ensures Decide(TEST_RULES, POST, ["menu"], caller) == Permit(ADMIN, caller)
    ensures Decide(TEST_RULES, PUT, ["menu", id], caller) == Permit(ADMIN, caller)
    ensures Decide(TEST_RULES, DELETE, ["menu", id], caller) == Permit(ADMIN, caller)
  {
    TestMenuRead(caller);
    TestMenuCreate(caller);
    TestMenuItemRule(PUT, 8, id, caller);
    TestMenuItemRule(DELETE, 9, id, caller);
  }

  /** Everything under /auth/ is public for every verb, role changes included. */
  lemma TestAuthPublic(verb: HttpMethod, rest: seq<string>, caller: Option<string>)
    ensures Decide(TEST_RULES, verb, ["auth"] + rest, caller) == Granted
  {
    var path := ["auth"] + rest;
    StaticPagesMiss(path);
    RuleApplies(TEST_RULES, 1, 0, verb, path);
    DecidedBy(TEST_RULES, verb, path, caller, 1);
  }

  /** One staff listing, /order/<name>, is decided by the admin-paths rule. */
  lemma TestListingAdmin(verb: HttpMethod, name: string, j: nat, caller: Option<string>)
    requires (name == "all" && j == 0) || (name == "pending" && j == 1)
    ensures Decide(TEST_RULES, verb, ["order", name], caller) == Permit(ADMIN, caller)
  {
    var path := ["order", name];
    StaticPagesMiss(path);
    RuleApplies(TEST_RULES, 5, j, verb, path);
    DecidedBy(TEST_RULES, verb, path, caller, 5);
  }

  /** The order listings for staff need ADMIN whatever the method. */
  lemma TestOrderListingsAdmin(verb: HttpMethod, caller: Option<string>)
    ensures Decide(TEST_RULES, verb, ["order", "all"], caller) == Permit(ADMIN, caller)
    ensures Decide(TEST_RULES, verb, ["order", "pending"], caller) == Permit(ADMIN, caller)
  {
    TestListingAdmin(verb, "all", 0, caller);
    TestListingAdmin(verb, "pending", 1, caller);
  }

  /** A status change needs ADMIN, where the order id is exactly one segment. */
  lemma TestOrderStatusAdmin(id: string, caller: Option<string>)
    ensures Decide(TEST_RULES, PUT, ["order", id, "status"], caller) == Permit(ADMIN, caller)
  {
    var path := ["order", id, "status"];
    StaticPagesMiss(path);
    MatchSegsIff(ORDER_STATUS.segs, false, path);
    RuleApplies(TEST_RULES, 6, 0, PUT, path);
    assert !MatcherApplies(TEST_RULES[1].matcher, PUT, path);
    var adminPaths := TEST_RULES[5].matcher.patterns;
    MatchSegsIff(adminPaths[0].segs, false, path);
    MatchSegsIff(adminPaths[1].segs, false, path);
    DecidedBy(TEST_RULES, PUT, path, caller, 6);
  }

  /** Placing an order needs a login. */
  lemma TestPlaceOrderAuthenticated(caller: Option<string>)
    ensures Decide(TEST_RULES, POST, ["order", "place"], caller) == Permit(Authenticated, caller)
  {
    StaticPagesMiss(["order", "place"]);
    RuleApplies(TEST_RULES, 3, 0, POST, ["order", "place"]);
    DecidedBy(TEST_RULES, POST, ["order", "place"], caller, 3);
  }

  /** Listing a user's orders needs a login. */
  lemma TestOrdersOfUserAuthenticated(id: string, caller: Option<string>)
    ensures Decide(TEST_RULES, GET, ["order", "user", id], caller) == Permit(Authenticated, caller)
  {
    var path := ["order", "user", id];
    StaticPagesMiss(path);
    MatchSegsIff(ORDER_OF_USER.segs, false, path);
    RuleApplies(TEST_RULES, 4, 0, GET, path);
    assert !MatcherApplies(TEST_RULES[1].matcher, GET, path);
    DecidedBy(TEST_RULES, GET, path, caller, 4);
  }

  /** A path that one of the page patterns matches is public. */
  lemma TestPagePublic(verb: HttpMethod, path: seq<string>, k: nat, caller: Option<string>)
    requires k < |STATIC_PAGES| && Matches(STATIC_PAGES[k], path)
    ensures Decide(TEST_RULES, verb, path, caller) == Granted
  {
    RuleApplies(TEST_RULES, 0, k, verb, path);
    DecidedBy(TEST_RULES, verb, path, caller, 0);
  }

  /** /admin/x is named by no rule of the test table but the last. */
  lemma TestAdminPageFallback(verb: HttpMethod, caller: Option<string>)
    ensures Decide(TEST_RULES, verb, ["admin", "x"], caller) == Permit(Authenticated, caller)
  {
    var path := ["admin", "x"];
    StaticPagesMiss(path);
    assert !Matches(Exactly(["order", "all"]), path) && !Matches(Exactly(["order", "pending"]), path);
    DecidedBy(TEST_RULES, verb, path, caller, 10);
  }

  /** Pages and static resources are public; a path that no earlier rule
      names, such as /admin/x, only needs a login. */
  lemma TestStaticAndFallback(verb: HttpMethod, rest: seq<string>, caller: Option<string>)
    ensures Decide(TEST_RULES, verb, ["menu.html"], caller) == Granted
    ensures Decide(TEST_RULES, verb, ["css"] + rest, caller) == Granted
    ensures Decide(TEST_RULES, verb, ["js"] + rest, caller) == Granted
    ensures Decide(TEST_RULES, verb, ["admin", "x"], caller) == Permit(Authenticated, caller)
  {
    TestPagePublic(verb, ["menu.html"], 0, caller);
    TestPagePublic(verb, ["css"] + rest, 6, caller);
    TestPagePublic(verb, ["js"] + rest, 7, caller);
    TestAdminPageFallback(verb, caller);
  }

  /** The closing `anyRequest().authenticated()`: a request that none of the
      ten earlier rules applies to only needs a login. */
  lemma TestFallback(verb: HttpMethod, path: seq<string>, caller: Option<string>)
    requires forall j :: 0 <= j < 10 ==> !MatcherApplies(TEST_RULES[j].matcher, verb, path)
    ensures FirstMatch(TEST_RULES, verb, path) == Some(10)
    ensures Decide(TEST_RULES, verb, path, caller) == Permit(Authenticated, caller)
  {
    DecidedBy(TEST_RULES, verb, path, caller, 10);
  }

  lemma TestRulesMonotone(verb: HttpMethod, path: seq<string>)
    ensures Decide(TEST_RULES, verb, path, None) == Granted ==> Decide(TEST_RULES, verb, path, Some("STUDENT")) == Granted
    ensures Decide(TEST_RULES, verb, path, Some("STUDENT")) == Granted ==> Decide(TEST_RULES, verb, path, Some("ADMIN")) == Granted
  {
    Monotone(TEST_RULES, verb, path);
  }
}
