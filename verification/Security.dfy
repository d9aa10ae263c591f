/**
 * The request-authorization rules of the security filter chain: an ordered table
 * of (verb, path patterns) -> access rules, where the first rule whose matcher
 * fits the request decides and a request no rule fits is denied.
 */
module SecurityConfig {
  import opened Models

  datatype HttpMethod = GET | HEAD | POST | PUT | PATCH | DELETE | OPTIONS | TRACE

  /** A request path as its segments: `/cars/1/carregistrations` is `["cars", "1", "carregistrations"]`. */
  type Path = seq<string>

  // `Exact(["a", "b"])` is the pattern "/a/b", matching that path only; `Subtree(["a", "b"])`
  // is "/a/b/" followed by a double star, matching "/a/b" and every path below it.
  datatype PathPattern = Exact(segments: seq<string>) | Subtree(segments: seq<string>)

  /** `requestMatchers(...)`, optionally restricted to one HTTP method, or `anyRequest()`. */
  datatype RequestMatcher = Matching(verb: Option<HttpMethod>, patterns: seq<PathPattern>) | AnyRequest

  /** `permitAll()`, `hasAnyRole(...)` (and `hasRole`, its one-role case), `denyAll()`. */
  datatype Access = PermitAll | HasAnyRole(roles: seq<string>) | DenyAll

  datatype Rule = Rule(matcher: RequestMatcher, access: Access)

  /** The caller as the token filter leaves it: no valid token, or a principal with authorities. */
  datatype Caller = Anonymous | Authenticated(authorities: set<string>)

  datatype Decision = Granted | Denied

  /** Roles are checked as authorities with this prefix. */
  const RolePrefix: string := "ROLE_"

  predicate PatternMatches(pattern: PathPattern, path: Path)
  {
    match pattern
    case Exact(segments) => path == segments
    case Subtree(segments) => segments <= path
  }

  predicate RequestMatches(matcher: RequestMatcher, verb: HttpMethod, path: Path)
  {
    match matcher
    case AnyRequest => true
    case Matching(only, patterns) =>
      (only.None? || only.value == verb) &&
      exists i :: 0 <= i < |patterns| && PatternMatches(patterns[i], path)
  }

  predicate HasRole(caller: Caller, role: string)
  {
    caller.Authenticated? && RolePrefix + role in caller.authorities
  }

  predicate Allows(access: Access, caller: Caller)
  {
    match access
    case PermitAll => true
    case HasAnyRole(roles) => exists i :: 0 <= i < |roles| && HasRole(caller, roles[i])
    case DenyAll => false
  }

  /** The verdict of one rule's access for the caller. */
  function Verdict(access: Access, caller: Caller): Decision
  {
    if Allows(access, caller) then Granted else Denied
  }

  /** The position of the first rule that fits the request, if any. */
  function FirstMatch(rules: seq<Rule>, verb: HttpMethod, path: Path): (found: Option<nat>)
    ensures found.Some? ==>
              && found.value < |rules|
              && RequestMatches(rules[found.value].matcher, verb, path)
              && forall j :: 0 <= j < found.value ==> !RequestMatches(rules[j].matcher, verb, path)
    ensures found.None? ==> forall j :: 0 <= j < |rules| ==> !RequestMatches(rules[j].matcher, verb, path)
  {
    if rules == [] then None
    else if RequestMatches(rules[0].matcher, verb, path) then Some(0)
    else match FirstMatch(rules[1..], verb, path)
      case None => None
      case Some(i) => Some(i + 1)
  }

  /** Walks the rules in declared order; the first that fits decides; none fitting denies. */
  function Decide(rules: seq<Rule>, verb: HttpMethod, path: Path, caller: Caller): (d: Decision)
    ensures d == Granted ==>
              exists i :: 0 <= i < |rules| && RequestMatches(rules[i].matcher, verb, path) && Allows(rules[i].access, caller)
    ensures (forall i :: 0 <= i < |rules| ==> !RequestMatches(rules[i].matcher, verb, path)) ==> d == Denied
  {
    if rules == [] then Denied
    else if RequestMatches(rules[0].matcher, verb, path) then Verdict(rules[0].access, caller)
    else Decide(rules[1..], verb, path, caller)
  }

  /** The walk decides exactly as the first fitting rule does, and denies when none fits. */
  lemma {:induction false} DecideByFirstMatch(rules: seq<Rule>, verb: HttpMethod, path: Path, caller: Caller)
    ensures Decide(rules, verb, path, caller) ==
              (match FirstMatch(rules, verb, path)
               case None => Denied
               case Some(i) => Verdict(rules[i].access, caller))
  {
    if rules != [] && !RequestMatches(rules[0].matcher, verb, path) {
      DecideByFirstMatch(rules[1..], verb, path, caller);
    }
  }

  /** Rules appended after a table in which some rule fits never change its decision. */
  lemma {:induction false} LaterRulesIgnored(rules: seq<Rule>, later: seq<Rule>, verb: HttpMethod, path: Path, caller: Caller)
    requires FirstMatch(rules, verb, path).Some?
    ensures Decide(rules + later, verb, path, caller) == Decide(rules, verb, path, caller)
  {
    if !RequestMatches(rules[0].matcher, verb, path) {
      assert (rules + later)[1..] == rules[1..] + later;
      LaterRulesIgnored(rules[1..], later, verb, path, caller);
    }
  }

  /** The table, in declared order. */
  const Rules: seq<Rule> := [
    Rule(Matching(None, [Subtree(["api-docs"]), Subtree(["swagger-ui"]), Subtree(["v3", "api-docs"])]), PermitAll),
    Rule(Matching(None, [Exact(["login"])]), PermitAll),
    Rule(Matching(Some(GET), [Exact(["cars"])]), HasAnyRole(["USER"])),
    Rule(Matching(None, [Subtree(["cars"])]), HasAnyRole(["ADMIN"])),
    Rule(AnyRequest, DenyAll)
  ]

  /**
   * The decision of the table for a request. Whatever the caller holds, nothing is
   * granted outside the documentation, `/login` and `/cars` with its subtree.
   */
  function Authorize(verb: HttpMethod, path: Path, caller: Caller): (d: Decision)
    ensures d == Granted ==>
              || RequestMatches(Rules[0].matcher, verb, path)
              || path == ["login"]
              || (|path| > 0 && path[0] == "cars")
  {
    GrantedOnlyOnListedPaths(verb, path, caller);
    Decide(Rules, verb, path, caller)
  }

  /** A grant by the table comes from one of its first four rules, hence from their paths. */
  lemma GrantedOnlyOnListedPaths(verb: HttpMethod, path: Path, caller: Caller)
    ensures Decide(Rules, verb, path, caller) == Granted ==>
              || RequestMatches(Rules[0].matcher, verb, path)
              || path == ["login"]
              || (|path| > 0 && path[0] == "cars")
  {
    if Decide(Rules, verb, path, caller) == Granted {
      var i :| 0 <= i < |Rules| && RequestMatches(Rules[i].matcher, verb, path) && Allows(Rules[i].access, caller);
      if i == 1 {
        var k :| 0 <= k < |Rules[1].matcher.patterns| && PatternMatches(Rules[1].matcher.patterns[k], path);
        assert k == 0;
      } else if i == 2 {
        var k :| 0 <= k < |Rules[2].matcher.patterns| && PatternMatches(Rules[2].matcher.patterns[k], path);
        assert k == 0;
      } else if i == 3 {
        var k :| 0 <= k < |Rules[3].matcher.patterns| && PatternMatches(Rules[3].matcher.patterns[k], path);
        assert k == 0 && ["cars"] <= path;
      }
    }
  }

  /** A pattern whose first segment differs from the path's does not match it. */
  lemma FirstSegmentMismatch(pattern: PathPattern, path: Path)
    requires |pattern.segments| > 0 && |path| > 0 && pattern.segments[0] != path[0]
    ensures !PatternMatches(pattern, path)
  {
  }

  /** A one-role `hasAnyRole` (that is, `hasRole`) admits exactly the callers with that role. */
  lemma SingleRole(role: string, caller: Caller)
    ensures Allows(HasAnyRole([role]), caller) <==> HasRole(caller, role)
  {
    assert [role][0] == role;
  }

  /** A rule that fits, after rules that do not, decides the request. */
  lemma DecidedBy(rules: seq<Rule>, i: nat, verb: HttpMethod, path: Path, caller: Caller)
    requires i < |rules| && RequestMatches(rules[i].matcher, verb, path)
    requires forall j :: 0 <= j < i ==> !RequestMatches(rules[j].matcher, verb, path)
    ensures Decide(rules, verb, path, caller) == Verdict(rules[i].access, caller)
  {
    DecideByFirstMatch(rules, verb, path, caller);
    assert FirstMatch(rules, verb, path) == Some(i);
  }

  /** The API documentation is open to every caller, for every HTTP method. */
  lemma DocumentationIsPublic(verb: HttpMethod, rest: Path, caller: Caller)
    ensures Authorize(verb, ["api-docs"] + rest, caller) == Granted
    ensures Authorize(verb, ["swagger-ui"] + rest, caller) == Granted
    ensures Authorize(verb, ["v3", "api-docs"] + rest, caller) == Granted
  {
    var docs := Rules[0].matcher.patterns;
    assert PatternMatches(docs[0], ["api-docs"] + rest);
    DecidedBy(Rules, 0, verb, ["api-docs"] + rest, caller);
    assert PatternMatches(docs[1], ["swagger-ui"] + rest);
    DecidedBy(Rules, 0, verb, ["swagger-ui"] + rest, caller);
    assert PatternMatches(docs[2], ["v3", "api-docs"] + rest);
    DecidedBy(Rules, 0, verb, ["v3", "api-docs"] + rest, caller);
  }

  /** The documentation rule does not fit a path whose first segment is none of its own. */
  lemma NotDocumentation(verb: HttpMethod, path: Path)
    requires |path| > 0 && path[0] != "api-docs" && path[0] != "swagger-ui" && path[0] != "v3"
    ensures !RequestMatches(Rules[0].matcher, verb, path)
  {
  }

  /** The login endpoint is open to every caller, for every HTTP method. */
  lemma LoginIsPublic(verb: HttpMethod, caller: Caller)
    ensures Authorize(verb, ["login"], caller) == Granted
  {
    NotDocumentation(verb, ["login"]);
    assert PatternMatches(Rules[1].matcher.patterns[0], ["login"]);
    DecidedBy(Rules, 1, verb, ["login"], caller);
  }

  /** Listing cars is granted exactly to callers with role USER; ADMIN alone does not do. */
  lemma ListingCarsNeedsUser(caller: Caller)
    ensures Authorize(GET, ["cars"], caller) == Granted <==> HasRole(caller, "USER")
  {
    NotDocumentation(GET, ["cars"]);
    FirstSegmentMismatch(Rules[1].matcher.patterns[0], ["cars"]);
    assert PatternMatches(Rules[2].matcher.patterns[0], ["cars"]);
    DecidedBy(Rules, 2, GET, ["cars"], caller);
    SingleRole("USER", caller);
  }

  /** Every other request under `/cars` is granted exactly to callers with role ADMIN. */
  lemma CarsSubtreeNeedsAdmin(verb: HttpMethod, rest: Path, caller: Caller)
    requires !(verb == GET && rest == [])
    ensures Authorize(verb, ["cars"] + rest, caller) == Granted <==> HasRole(caller, "ADMIN")
  {
    var path := ["cars"] + rest;
    assert path[0] == "cars";
    NotDocumentation(verb, path);
    FirstSegmentMismatch(Rules[1].matcher.patterns[0], path);
    assert verb == GET ==> path != ["cars"];
    assert !RequestMatches(Rules[2].matcher, verb, path);
    assert PatternMatches(Rules[3].matcher.patterns[0], path);
    DecidedBy(Rules, 3, verb, path, caller);
    SingleRole("ADMIN", caller);
  }

  /** A request that none of the four specific rules fits falls to the catch-all and is denied, to ADMIN callers too. */
  lemma UnmatchedRequestsDenied(verb: HttpMethod, path: Path, caller: Caller)
    requires forall i :: 0 <= i < 4 ==> !RequestMatches(Rules[i].matcher, verb, path)
    ensures Authorize(verb, path, caller) == Denied
  {
    DecidedBy(Rules, 4, verb, path, caller);
  }

  /** A path outside the documentation, `/login` and `/cars` is denied, to ADMIN callers too. */
  lemma OtherPathsDenied(verb: HttpMethod, path: Path, caller: Caller)
    requires path == [] || path[0] !in {"api-docs", "swagger-ui", "v3", "login", "cars"}
    ensures Authorize(verb, path, caller) == Denied
  {
    if path != [] {
      NotDocumentation(verb, path);
      FirstSegmentMismatch(Rules[1].matcher.patterns[0], path);
      FirstSegmentMismatch(Rules[2].matcher.patterns[0], path);
      FirstSegmentMismatch(Rules[3].matcher.patterns[0], path);
    }
    UnmatchedRequestsDenied(verb, path, caller);
  }

  /** `/login` is matched exactly: every path below it is denied. */
  lemma BelowLoginDenied(verb: HttpMethod, rest: Path, caller: Caller)
    requires rest != []
    ensures Authorize(verb, ["login"] + rest, caller) == Denied
  {
    var path := ["login"] + rest;
    assert path[0] == "login";
    NotDocumentation(verb, path);
    assert path != ["login"];
    FirstSegmentMismatch(Rules[2].matcher.patterns[0], path);
    FirstSegmentMismatch(Rules[3].matcher.patterns[0], path);
    UnmatchedRequestsDenied(verb, path, caller);
  }

  /** Under `/v3` only `/v3/api-docs` is open; `/v3` itself and its other children are denied. */
  lemma OutsideV3DocsDenied(verb: HttpMethod, rest: Path, caller: Caller)
    requires rest == [] || rest[0] != "api-docs"
    ensures Authorize(verb, ["v3"] + rest, caller) == Denied
  {
    var path := ["v3"] + rest;
    assert path[0] == "v3";
    assert |path| > 1 ==> path[1] == rest[0];
    var docs := Rules[0].matcher.patterns;
    FirstSegmentMismatch(docs[0], path);
    FirstSegmentMismatch(docs[1], path);
    assert !PatternMatches(docs[2], path);
    FirstSegmentMismatch(Rules[1].matcher.patterns[0], path);
    FirstSegmentMismatch(Rules[2].matcher.patterns[0], path);
    FirstSegmentMismatch(Rules[3].matcher.patterns[0], path);
    UnmatchedRequestsDenied(verb, path, caller);
  }

  /** A caller without a valid token gets through only to the documentation and `/login`. */
  lemma AnonymousReachesOnlyPublicPaths(verb: HttpMethod, path: Path)
    ensures Authorize(verb, path, Anonymous) == Granted ==>
              RequestMatches(Rules[0].matcher, verb, path) || path == ["login"]
  {
    DecideByFirstMatch(Rules, verb, path, Anonymous);
    var first := FirstMatch(Rules, verb, path);
    if first == Some(1) {
      var k :| 0 <= k < |Rules[1].matcher.patterns| && PatternMatches(Rules[1].matcher.patterns[k], path);
      assert k == 0;
    }
  }
}
