/**
 The strict route profile. One predicate prunes route templates at startup and guards
 concrete request paths; this module says exactly when the two agree. Table entries and
 regular expressions are kept segment by segment.
 */
module RouteProfile {
  import opened Wrappers

  type Path = seq<string>

  // ---------------------------------------------------------------------------
  // Strings and segments
  // ---------------------------------------------------------------------------

  /** The pieces of a text between its slashes; never empty. */
  function Split(s: string): (r: Path)
    ensures |r| > 0
  {
    if s == "" then [""]
    else
      var rest := Split(s[1..]);
      if s[0] == '/' then [""] + rest else [[s[0]] + rest[0]] + rest[1..]
  }

  function Join(p: Path): string
    requires |p| > 0
  {
    if |p| == 1 then p[0] else p[0] + "/" + Join(p[1..])
  }

  predicate Rooted(path: string) {
    path != "" && path[0] == '/'
  }

  function Normalized(path: string): (r: string)
    ensures Rooted(r)
  {
    if Rooted(path) then path else "/" + path
  }

  function Segments(path: string): Path {
    Split(Normalized(path)[1..])
  }

  /** A path without its leading slash is judged as if it had one. */
  lemma SlashIsSupplied(path: string)
    ensures !Rooted(path) ==> Segments(path) == Segments("/" + path)
    ensures Rooted(path) ==> Segments(path) == Split(path[1..])
  {
    assert ("/" + path)[1..] == path;
  }

  /** Splitting loses nothing, so equal segments mean equal paths. */
  lemma {:induction false} JoinSplit(s: string)
    ensures Join(Split(s)) == s
  {
    if s != "" {
      JoinSplit(s[1..]);
      var rest := Split(s[1..]);
      if s[0] == '/' {
        assert Split(s)[1..] == rest;
      } else {
        assert Split(s)[1..] == rest[1..];
        assert s == [s[0]] + s[1..];
      }
    }
  }

  lemma {:induction false} SplitAtSlash(a: string, b: string)
    ensures Split(a + "/" + b) == Split(a) + Split(b)
  {
    var s := a + "/" + b;
    if a == "" {
      assert s[1..] == b;
    } else {
      assert s[1..] == a[1..] + "/" + b;
      SplitAtSlash(a[1..], b);
    }
  }

  lemma {:induction false} JoinAppend(p: Path, q: Path)
    requires |p| > 0 && |q| > 0
    ensures Join(p + q) == Join(p) + "/" + Join(q)
  {
    if |p| == 1 {
      assert (p + q)[1..] == q;
    } else {
      assert (p + q)[1..] == p[1..] + q;
      JoinAppend(p[1..], q);
    }
  }

  /** The string test `path == prefix or path.startswith(prefix + "/")` is the prefix test on segments. */
  lemma PrefixTestOnSegments(prefix: string, path: string)
    ensures path == prefix || prefix + "/" <= path <==> Split(prefix) <= Split(path)
  {
    if prefix + "/" <= path {
      var tail := path[|prefix| + 1..];
      assert path == prefix + "/" + tail;
      SplitAtSlash(prefix, tail);
    }
    if Split(prefix) <= Split(path) {
      var rest := Split(path)[|Split(prefix)|..];
      assert Split(path) == Split(prefix) + rest;
      JoinSplit(prefix);
      JoinSplit(path);
      if rest != [] {
        JoinAppend(Split(prefix), rest);
      } else {
        assert Split(path) == Split(prefix);
      }
    }
  }

  // ---------------------------------------------------------------------------
  // Tables
  // ---------------------------------------------------------------------------

  /** One segment of a dynamic pattern: literal text, `[^/]+`, an alternation, or a 64-digit hash beside its placeholder. */
  datatype Atom = Lit(text: string) | Any | OneOf(options: set<string>) | HashOr(placeholder: string)

  type Pattern = seq<Atom>

  datatype Profile = Profile(
    exact: set<Path>, patterns: seq<Pattern>, prefixes: seq<Path>,
    outlookGated: set<Path>, teamsGated: set<Path>, teamsPrefixes: seq<Path>)

  datatype Flags = Flags(outlook: bool, teams: bool)

  predicate IsHash(s: string) {
    |s| == 64 && forall i | 0 <= i < 64 :: '0' <= s[i] <= '9' || 'a' <= s[i] <= 'f'
  }

  predicate AtomMatches(a: Atom, segment: string) {
    match a
    case Lit(text) => segment == text
    case Any => segment != ""
    case OneOf(options) => segment in options
    case HashOr(placeholder) => segment == placeholder || IsHash(segment)
  }

  predicate PatternMatches(p: Pattern, path: Path) {
    |p| == |path| && forall i | 0 <= i < |p| :: AtomMatches(p[i], path[i])
  }

  predicate Listed(pr: Profile, path: Path) {
    || path in pr.exact
    || (exists p | p in pr.patterns :: PatternMatches(p, path))
    || (exists prefix | prefix in pr.prefixes :: prefix <= path)
  }

  /** `_is_flag_gated_path`, on a path that starts with a slash. */
  predicate Gated(pr: Profile, path: Path) {
    path in pr.outlookGated || path in pr.teamsGated || exists prefix | prefix in pr.teamsPrefixes :: prefix <= path
  }

  /** The flag this path needs is off. */
  predicate SwitchedOff(pr: Profile, flags: Flags, path: Path) {
    || (path in pr.outlookGated && !flags.outlook)
    || (path in pr.teamsGated && !flags.teams)
    || (!flags.teams && exists prefix | prefix in pr.teamsPrefixes :: prefix <= path)
  }

  /** `_is_strict_profile_allowed_path`. */
  predicate Allowed(pr: Profile, flags: Flags, path: Path) {
    !SwitchedOff(pr, flags, path) && Listed(pr, path)
  }

  /** Flipping flags changes the guard's answer on gated paths only. */
  lemma FlagsTouchGatedPathsOnly(pr: Profile, f: Flags, g: Flags, path: Path)
    ensures Allowed(pr, f, path) != Allowed(pr, g, path) ==> Gated(pr, path) && Listed(pr, path)
  {
  }

  // ---------------------------------------------------------------------------
  // Templates and their instances
  // ---------------------------------------------------------------------------

  predicate IsParam(segment: string) {
    |segment| >= 2 && segment[0] == '{' && segment[|segment| - 1] == '}'
  }

  predicate HasParam(path: Path) {
    exists i | 0 <= i < |path| :: IsParam(path[i])
  }

  /** A placeholder stands for any non-empty segment, other text for itself. */
  predicate Meets(t: string, segment: string) {
    if IsParam(t) then segment != "" else segment == t
  }

  /** A request path the router hands to this template. */
  predicate Instance(template: Path, path: Path) {
    && |path| == |template|
    && forall i | 0 <= i < |path| :: Meets(template[i], path[i])
  }

  /** The match, not counting table text that is itself a placeholder. */
  predicate PlainAtomMatches(a: Atom, segment: string) {
    match a
    case Lit(text) => segment == text && !IsParam(text)
    case Any => segment != ""
    case OneOf(options) => segment in options && !IsParam(segment)
    case HashOr(placeholder) => (segment == placeholder && !IsParam(placeholder)) || IsHash(segment)
  }

  predicate PlainPatternMatches(p: Pattern, path: Path) {
    |p| == |path| && forall i | 0 <= i < |p| :: PlainAtomMatches(p[i], path[i])
  }

  /** Listed without help from any brace-carrying table text. */
  predicate ListedPlainly(pr: Profile, path: Path) {
    || (path in pr.exact && !HasParam(path))
    || (exists p | p in pr.patterns :: PlainPatternMatches(p, path))
    || (exists prefix | prefix in pr.prefixes :: !HasParam(prefix) && prefix <= path)
  }

  lemma PlainAtomCoversInstances(a: Atom, t: string, segment: string)
    requires PlainAtomMatches(a, t) && Meets(t, segment)
    ensures AtomMatches(a, segment)
  {
  }

  /** A plainly listed template has all its instances listed. */
  lemma PlainListingCoversInstances(pr: Profile, template: Path, path: Path)
    requires ListedPlainly(pr, template) && Instance(template, path)
    ensures Listed(pr, path)
  {
    if template in pr.exact && !HasParam(template) {
      assert path == template;
    } else if p :| p in pr.patterns && PlainPatternMatches(p, template) {
      forall i | 0 <= i < |p| ensures AtomMatches(p[i], path[i]) {
        PlainAtomCoversInstances(p[i], template[i], path[i]);
      }
      assert PatternMatches(p, path);
    } else {
      var prefix :| prefix in pr.prefixes && !HasParam(prefix) && prefix <= template;
      forall i | 0 <= i < |prefix| ensures path[i] == prefix[i] {
        assert !IsParam(prefix[i]) && template[i] == prefix[i];
      }
      assert prefix <= path;
    }
  }

  // ---------------------------------------------------------------------------
  // A value no table mentions
  // ---------------------------------------------------------------------------

  function AtomWords(a: Atom): set<string> {
    match a
    case Lit(text) => {text}
    case Any => {}
    case OneOf(options) => options
    case HashOr(placeholder) => {placeholder}
  }

  /** Every piece of text the listing tables mention. */
  function Words(pr: Profile): set<string> {
    (set path, i | path in pr.exact && 0 <= i < |path| :: path[i])
    + (set p, i, w | p in pr.patterns && 0 <= i < |p| && w in AtomWords(p[i]) :: w)
    + (set prefix, i | prefix in pr.prefixes && 0 <= i < |prefix| :: prefix[i])
  }

  lemma {:induction false} LongerThanAll(words: set<string>) returns (n: nat)
    ensures forall w | w in words :: |w| < n
  {
    if words == {} {
      n := 0;
    } else {
      var w :| w in words;
      n := LongerThanAll(words - {w});
      n := if n <= |w| then |w| + 1 else n;
    }
  }

  /** A segment that is no table word, no hash and no placeholder. */
  lemma FreshValue(pr: Profile) returns (v: string)
    ensures v != "" && v !in Words(pr) && !IsHash(v) && !IsParam(v)
  {
    var n := LongerThanAll(Words(pr));
    v := seq(n + 65, _ => 'z');
    assert v[0] == 'z';
  }

  function Filled(template: Path, v: string): Path {
    seq(|template|, i requires 0 <= i < |template| => if IsParam(template[i]) then v else template[i])
  }

  lemma FreshAtom(a: Atom, t: string, v: string)
    requires v != "" && v !in AtomWords(a) && !IsHash(v)
    requires AtomMatches(a, if IsParam(t) then v else t)
    ensures PlainAtomMatches(a, t)
  {
  }

  /** If the instance with fresh values is listed, the template is listed plainly. */
  lemma FreshInstanceDecides(pr: Profile, template: Path, v: string)
    requires v != "" && v !in Words(pr) && !IsHash(v)
    requires Listed(pr, Filled(template, v))
    ensures ListedPlainly(pr, template)
  {
    var path := Filled(template, v);
    if path in pr.exact {
      forall i | 0 <= i < |template| ensures !IsParam(template[i]) {
        assert path[i] in Words(pr);
      }
      assert path == template;
    } else if p :| p in pr.patterns && PatternMatches(p, path) {
      forall i | 0 <= i < |p| ensures PlainAtomMatches(p[i], template[i]) {
        assert forall w | w in AtomWords(p[i]) :: w in Words(pr);
        FreshAtom(p[i], template[i], v);
      }
      assert PlainPatternMatches(p, template);
    } else {
      var prefix :| prefix in pr.prefixes && prefix <= path;
      forall i | 0 <= i < |prefix| ensures !IsParam(template[i]) && prefix[i] == template[i] {
        assert prefix[i] in Words(pr) && prefix[i] == path[i];
      }
      assert prefix <= template && !HasParam(prefix);
    }
  }

  /**
   The tables list every instance of a template exactly when they list the template itself
   without help from brace-carrying text.
   */
  lemma InstancesListedExactly(pr: Profile, template: Path)
    ensures (forall path | Instance(template, path) :: Listed(pr, path)) <==> ListedPlainly(pr, template)
  {
    if ListedPlainly(pr, template) {
      forall path | Instance(template, path) ensures Listed(pr, path) {
        PlainListingCoversInstances(pr, template, path);
      }
    }
    if forall path | Instance(template, path) :: Listed(pr, path) {
      var v := FreshValue(pr);
      assert Instance(template, Filled(template, v));
      FreshInstanceDecides(pr, template, v);
    }
  }

  /** An atom that lets this segment through only by a placeholder written into the table. */
  predicate LeansOnBraces(a: Atom, segment: string) {
    IsParam(segment) && segment in AtomWords(a)
  }

  /** Table text that carries a placeholder lists the template: an entry, a pattern or a prefix. */
  predicate BraceTextLists(pr: Profile, template: Path) {
    || (template in pr.exact && HasParam(template))
    || (exists p | p in pr.patterns :: PatternMatches(p, template) && exists i | 0 <= i < |p| :: LeansOnBraces(p[i], template[i]))
    || (exists prefix | prefix in pr.prefixes :: prefix <= template && HasParam(prefix))
  }

  /** A listed template with an unlisted instance owes its listing to brace-carrying table text. */
  lemma UnlistedInstanceNeedsBraceText(pr: Profile, template: Path, path: Path)
    requires Listed(pr, template) && Instance(template, path) && !Listed(pr, path)
    ensures BraceTextLists(pr, template)
  {
    InstancesListedExactly(pr, template);
    if p :| p in pr.patterns && PatternMatches(p, template) {
      assert !PlainPatternMatches(p, template);
      var i :| 0 <= i < |p| && !PlainAtomMatches(p[i], template[i]);
      assert LeansOnBraces(p[i], template[i]);
    }
  }

  /** The guard turns an instance of a plainly listed template away only because that very path is switched off. */
  lemma GuardServesInstances(pr: Profile, flags: Flags, template: Path, path: Path)
    requires ListedPlainly(pr, template) && Instance(template, path)
    ensures Allowed(pr, flags, path) <==> !SwitchedOff(pr, flags, path)
  {
    PlainListingCoversInstances(pr, template, path);
  }

  // ---------------------------------------------------------------------------
  // Two families of the repository's tables
  // ---------------------------------------------------------------------------

  /** The ERP-panel entries of the extension family and the original-document pattern; no prefix starts either family. */
  const PANELS := Profile(
    { ["extension", "ap-items", "by-sage-intacct-bill", "{record_no}"],
      ["extension", "ap-items", "by-sage-intacct-bill", "{record_no}", "approve"],
      ["extension", "ap-items", "by-sage-intacct-bill", "{record_no}", "reject"],
      ["extension", "ap-items", "by-sage-intacct-bill", "{record_no}", "request-info"],
      ["extension", "ap-items", "by-erp-reference", "{erp_type}", "{erp_reference}"],
      ["extension", "ap-items", "by-erp-reference", "{erp_type}", "{erp_reference}", "approve"],
      ["extension", "ap-items", "by-erp-reference", "{erp_type}", "{erp_reference}", "reject"],
      ["extension", "ap-items", "by-erp-reference", "{erp_type}", "{erp_reference}", "request-info"] },
    [ [Lit("extension"), Lit("ap-items"), Lit("by-netsuite-bill"), Any, OneOf({"approve", "reject", "request-info"})],
      [Lit("extension"), Lit("ap-items"), Lit("by-netsuite-bill"), Any],
      [Lit("extension"), Lit("ap-items"), Lit("by-erp-reference"), Any, Any],
      [Lit("extension"), Lit("ap-items"), Lit("by-erp-reference"), Any, Any, OneOf({"approve", "reject", "request-info"})],
      [Lit("api"), Lit("workspace"), Lit("ap"), Lit("items"), Any, Lit("originals")],
      [Lit("api"), Lit("workspace"), Lit("ap"), Lit("items"), Lit("originals"), HashOr("{content_hash}")] ],
    [], {}, {}, [])

  /** Kept at startup, but every request to it is turned away by the tables. */
  lemma SagePanelDisagrees()
    ensures Listed(PANELS, ["extension", "ap-items", "by-sage-intacct-bill", "{record_no}"])
    ensures Instance(["extension", "ap-items", "by-sage-intacct-bill", "{record_no}"], ["extension", "ap-items", "by-sage-intacct-bill", "1001"])
    ensures !Listed(PANELS, ["extension", "ap-items", "by-sage-intacct-bill", "1001"])
  {
    var path := ["extension", "ap-items", "by-sage-intacct-bill", "1001"];
    assert path[3] != "{record_no}";
    assert path[2] != "by-netsuite-bill";
    assert IsParam("{record_no}") && !IsParam("extension") && !IsParam("ap-items") && !IsParam("by-sage-intacct-bill");
  }

  /** The patterns rescue the by-erp-reference entries: all their instances are listed. */
  lemma ErpReferenceAgrees(path: Path)
    requires Instance(["extension", "ap-items", "by-erp-reference", "{erp_type}", "{erp_reference}"], path)
    ensures Listed(PANELS, path)
  {
    var template := ["extension", "ap-items", "by-erp-reference", "{erp_type}", "{erp_reference}"];
    assert !IsParam("extension") && !IsParam("ap-items") && !IsParam("by-erp-reference");
    assert PlainPatternMatches(PANELS.patterns[2], template);
    PlainListingCoversInstances(PANELS, template, path);
  }

  /** The placeholder keeps the originals route at startup; requests pass only with a 64-digit hash, bar one accident. */
  lemma OriginalsRouteDisagrees(hash: string)
    ensures Listed(PANELS, ["api", "workspace", "ap", "items", "originals", "{content_hash}"])
    ensures Listed(PANELS, ["api", "workspace", "ap", "items", "originals", hash])
       <==> hash == "{content_hash}" || IsHash(hash) || hash == "originals"
  {
    var item, byHash := PANELS.patterns[4], PANELS.patterns[5];
    assert PatternMatches(byHash, ["api", "workspace", "ap", "items", "originals", "{content_hash}"]);
    var path := ["api", "workspace", "ap", "items", "originals", hash];
    assert path[0] != "extension";
    assert forall i | 0 <= i < 5 :: AtomMatches(item[i], path[i]) && AtomMatches(byHash[i], path[i]);
    assert AtomMatches(item[5], path[5]) <==> hash == "originals";
    assert AtomMatches(byHash[5], path[5]) <==> hash == "{content_hash}" || IsHash(hash);
    assert PatternMatches(item, path) <==> AtomMatches(item[5], path[5]);
    assert PatternMatches(byHash, path) <==> AtomMatches(byHash[5], path[5]);
  }

  // ---------------------------------------------------------------------------
  // The two passes
  // ---------------------------------------------------------------------------

  /** Some instance of the template starts with these segments. */
  predicate CanStart(template: Path, prefix: Path) {
    |prefix| <= |template| && forall i | 0 <= i < |prefix| :: Meets(template[i], prefix[i])
  }

  /** A gated entry or prefix whose flag is off meets some instance of the template: checked on the tables, entry by entry. */
  predicate GateReaches(pr: Profile, flags: Flags, template: Path) {
    || (!flags.outlook && exists path | path in pr.outlookGated :: Instance(template, path))
    || (!flags.teams && exists path | path in pr.teamsGated :: Instance(template, path))
    || (!flags.teams && exists prefix | prefix in pr.teamsPrefixes :: CanStart(template, prefix))
  }

  lemma StartsExactly(template: Path, prefix: Path)
    ensures CanStart(template, prefix) <==> exists path :: Instance(template, path) && prefix <= path
  {
    if CanStart(template, prefix) {
      var path := prefix + Filled(template, "z")[|prefix|..];
      assert forall i | |prefix| <= i < |template| :: path[i] == Filled(template, "z")[i];
      assert Instance(template, path) && prefix <= path;
    }
    if path :| Instance(template, path) && prefix <= path {
      assert forall i | 0 <= i < |prefix| :: path[i] == prefix[i];
    }
  }

  /** Some instance of a template is switched off exactly when a gate whose flag is off reaches the template. */
  lemma SwitchedInstanceExactly(pr: Profile, flags: Flags, template: Path)
    ensures (exists path :: Instance(template, path) && SwitchedOff(pr, flags, path)) <==> GateReaches(pr, flags, template)
  {
    forall prefix | prefix in pr.teamsPrefixes
      ensures CanStart(template, prefix) <==> exists path :: Instance(template, path) && prefix <= path
    {
      StartsExactly(template, prefix);
    }
    if GateReaches(pr, flags, template) {
      if path :| path in pr.outlookGated + pr.teamsGated && Instance(template, path) && SwitchedOff(pr, flags, path) {
        assert Instance(template, path) && SwitchedOff(pr, flags, path);
      } else {
        var prefix :| prefix in pr.teamsPrefixes && CanStart(template, prefix);
        var path :| Instance(template, path) && prefix <= path;
        assert SwitchedOff(pr, flags, path);
      }
    }
  }

  /** A mounted route; routes without a path attribute carry `None`. */
  datatype Route = Route(path: Option<string>, handler: nat)

  predicate GatedRoute(pr: Profile, path: string) {
    Rooted(path) && Gated(pr, Segments(path))
  }

  /** The startup pass: what stays mounted. */
  predicate Kept(pr: Profile, flags: Flags, r: Route) {
    r.path.None? || GatedRoute(pr, r.path.value) || Allowed(pr, flags, Segments(r.path.value))
  }

  /** A route registered under a path with its leading slash stays mounted, under any flags, exactly when it is gated or listed. */
  lemma RootedKeptExactly(pr: Profile, flags: Flags, r: Route)
    requires r.path.Some? && Rooted(r.path.value)
    ensures Kept(pr, flags, r) <==> Gated(pr, Segments(r.path.value)) || Listed(pr, Segments(r.path.value))
  {
  }

  /** The request pass: the guard admits every request the router would hand to the template. */
  ghost predicate Served(pr: Profile, flags: Flags, template: Path) {
    forall path | Instance(template, path) :: Allowed(pr, flags, path)
  }

  /** The guard serves a template exactly when the template is listed plainly and no switched-off gate reaches it. */
  lemma ServedExactly(pr: Profile, flags: Flags, template: Path)
    ensures Served(pr, flags, template) <==> ListedPlainly(pr, template) && !GateReaches(pr, flags, template)
  {
    InstancesListedExactly(pr, template);
    SwitchedInstanceExactly(pr, flags, template);
    if Served(pr, flags, template) {
      forall path | Instance(template, path) ensures Listed(pr, path) && !SwitchedOff(pr, flags, path) {
        assert Allowed(pr, flags, path);
      }
    } else {
      var path :| Instance(template, path) && !Allowed(pr, flags, path);
      assert !Listed(pr, path) || SwitchedOff(pr, flags, path);
    }
  }

  // ---------------------------------------------------------------------------
  // Requests the guard would admit to a template
  // ---------------------------------------------------------------------------

  /** The atom lets some segment through that the template's segment can stand for. */
  predicate AtomMeets(a: Atom, t: string) {
    if !IsParam(t) then AtomMatches(a, t)
    else match a
      case Lit(text) => text != ""
      case Any => true
      case OneOf(options) => exists o | o in options :: o != ""
      case HashOr(_) => true
  }

  predicate PatternMeets(p: Pattern, template: Path) {
    |p| == |template| && forall i | 0 <= i < |p| :: AtomMeets(p[i], template[i])
  }

  /** An entry, a pattern or a prefix meets the template, segment by segment. */
  predicate ListingMeets(pr: Profile, template: Path) {
    || (exists path | path in pr.exact :: Instance(template, path))
    || (exists p | p in pr.patterns :: PatternMeets(p, template))
    || (exists prefix | prefix in pr.prefixes :: CanStart(template, prefix))
  }

  lemma AtomMeetsSegment(a: Atom, t: string) returns (segment: string)
    requires AtomMeets(a, t)
    ensures Meets(t, segment) && AtomMatches(a, segment)
  {
    if !IsParam(t) {
      return t;
    }
    match a
    case Lit(text) => segment := text;
    case Any => segment := "z";
    case OneOf(options) => segment :| segment in options && segment != "";
    case HashOr(_) => segment := seq(64, _ => '0');
  }

  lemma SegmentMeetsAtom(a: Atom, t: string, segment: string)
    requires Meets(t, segment) && AtomMatches(a, segment)
    ensures AtomMeets(a, t)
  {
  }

  lemma {:induction false} PatternMeetsPath(p: Pattern, template: Path) returns (path: Path)
    requires PatternMeets(p, template)
    ensures Instance(template, path) && PatternMatches(p, path)
  {
    if p == [] {
      path := [];
    } else {
      var segment := AtomMeetsSegment(p[0], template[0]);
      var rest := PatternMeetsPath(p[1..], template[1..]);
      path := [segment] + rest;
      assert forall i | 1 <= i < |template| :: template[1..][i - 1] == template[i] && p[1..][i - 1] == p[i];
    }
  }

  /** Some request to a template is listed exactly when an entry, a pattern or a prefix meets the template. */
  lemma ListedSomewhereExactly(pr: Profile, template: Path)
    ensures (exists path :: Instance(template, path) && Listed(pr, path)) <==> ListingMeets(pr, template)
  {
    forall prefix | prefix in pr.prefixes
      ensures CanStart(template, prefix) <==> exists path :: Instance(template, path) && prefix <= path
    {
      StartsExactly(template, prefix);
    }
    if path :| Instance(template, path) && Listed(pr, path) {
      if p :| p in pr.patterns && PatternMatches(p, path) {
        forall i | 0 <= i < |p| ensures AtomMeets(p[i], template[i]) {
          SegmentMeetsAtom(p[i], template[i], path[i]);
        }
        assert PatternMeets(p, template);
      }
    }
    if p :| p in pr.patterns && PatternMeets(p, template) {
      var path := PatternMeetsPath(p, template);
      assert Listed(pr, path);
    }
  }

  /** Every piece of text the tables mention, for listing or for gating. */
  function AllWords(pr: Profile): set<string> {
    Words(pr)
    + (set path, i | path in pr.outlookGated && 0 <= i < |path| :: path[i])
    + (set path, i | path in pr.teamsGated && 0 <= i < |path| :: path[i])
    + (set prefix, i | prefix in pr.teamsPrefixes && 0 <= i < |prefix| :: prefix[i])
  }

  /** A word and a hash the tables do not mention; the hash may be one they do when they mention every hash. */
  ghost predicate FreshPair(pr: Profile, v: string, h: string) {
    && v != "" && v !in AllWords(pr) && !IsHash(v)
    && IsHash(h) && (h in AllWords(pr) ==> forall g | IsHash(g) :: g in AllWords(pr))
  }

  lemma FreshPairExists(pr: Profile) returns (v: string, h: string)
    ensures FreshPair(pr, v, h)
  {
    var n := LongerThanAll(AllWords(pr));
    v := seq(n + 65, _ => 'z');
    h := seq(64, _ => '0');
    if g :| IsHash(g) && g !in AllWords(pr) {
      h := g;
    }
  }

  /** The finitely many requests to a template that take their values from a finite set. */
  function Fillings(template: Path, values: set<string>): set<Path> {
    if template == [] then {[]}
    else
      var heads := if IsParam(template[0]) then values - {""} else {template[0]};
      set head, rest | head in heads && rest in Fillings(template[1..], values) :: [head] + rest
  }

  predicate FilledFrom(template: Path, path: Path, values: set<string>) {
    Instance(template, path) && forall i | 0 <= i < |path| :: IsParam(template[i]) ==> path[i] in values
  }

  lemma {:induction false} FillingsExactly(template: Path, values: set<string>, path: Path)
    ensures path in Fillings(template, values) <==> FilledFrom(template, path, values)
  {
    if template != [] {
      if path != [] {
        FillingsExactly(template[1..], values, path[1..]);
        assert path == [path[0]] + path[1..];
        assert FilledFrom(template, path, values) ==> FilledFrom(template[1..], path[1..], values);
        assert forall i | 1 <= i < |template| && |path| == |template| :: template[1..][i - 1] == template[i] && path[1..][i - 1] == path[i];
      }
      forall head: string, rest: Path ensures path == [head] + rest ==> path[0] == head && path[1..] == rest {
      }
    }
  }

  /** The guard admits one of finitely many requests: values taken from the tables, one other word, one other hash. */
  predicate AdmittedSample(pr: Profile, flags: Flags, template: Path, v: string, h: string) {
    exists path | path in Fillings(template, AllWords(pr) + {v, h}) :: Allowed(pr, flags, path)
  }

  /** The request with every value the tables do not mention replaced by the fresh word or the fresh hash. */
  function Sampled(pr: Profile, template: Path, path: Path, v: string, h: string): Path
    requires |path| == |template|
  {
    seq(|path|, i requires 0 <= i < |path| =>
      if !IsParam(template[i]) || path[i] in AllWords(pr) then path[i] else if IsHash(path[i]) then h else v)
  }

  lemma SampledIsListed(pr: Profile, template: Path, path: Path, v: string, h: string)
    requires FreshPair(pr, v, h) && Instance(template, path) && Listed(pr, path)
    ensures Listed(pr, Sampled(pr, template, path, v, h))
  {
    var sample := Sampled(pr, template, path, v, h);
    if path in pr.exact {
      assert forall i | 0 <= i < |path| :: path[i] in AllWords(pr);
      assert sample == path;
    } else if p :| p in pr.patterns && PatternMatches(p, path) {
      forall i | 0 <= i < |p| ensures AtomMatches(p[i], sample[i]) {
        assert forall w | w in AtomWords(p[i]) :: w in Words(pr);
      }
      assert PatternMatches(p, sample);
    } else {
      var prefix :| prefix in pr.prefixes && prefix <= path;
      assert forall i | 0 <= i < |prefix| :: prefix[i] in AllWords(pr) && path[i] == prefix[i];
      assert prefix <= sample;
    }
  }

  /** If the sample starts with gate text, so does the request. */
  lemma SampledStarts(pr: Profile, template: Path, path: Path, v: string, h: string, gate: Path)
    requires FreshPair(pr, v, h) && Instance(template, path) && gate <= Sampled(pr, template, path, v, h)
    requires forall i | 0 <= i < |gate| :: gate[i] in AllWords(pr)
    ensures gate <= path
  {
    var sample := Sampled(pr, template, path, v, h);
    forall i | 0 <= i < |gate| ensures path[i] == gate[i] {
      assert sample[i] == gate[i];
    }
  }

  lemma SampledIsNotSwitchedOff(pr: Profile, flags: Flags, template: Path, path: Path, v: string, h: string)
    requires FreshPair(pr, v, h) && Instance(template, path) && SwitchedOff(pr, flags, Sampled(pr, template, path, v, h))
    ensures SwitchedOff(pr, flags, path)
  {
    var sample := Sampled(pr, template, path, v, h);
    if sample in pr.outlookGated + pr.teamsGated {
      assert forall i | 0 <= i < |sample| :: sample[i] in AllWords(pr);
      SampledStarts(pr, template, path, v, h, sample);
      assert sample == path;
    }
    forall gate | gate in pr.teamsPrefixes && gate <= sample ensures gate <= path {
      assert forall i | 0 <= i < |gate| :: gate[i] in AllWords(pr);
      SampledStarts(pr, template, path, v, h, gate);
    }
  }

  /** The guard admits some request to a template exactly when it admits one of finitely many samples. */
  lemma AdmittedSomewhereExactly(pr: Profile, flags: Flags, template: Path, v: string, h: string)
    requires FreshPair(pr, v, h)
    ensures (exists path :: Instance(template, path) && Allowed(pr, flags, path)) <==> AdmittedSample(pr, flags, template, v, h)
    ensures AdmittedSample(pr, flags, template, v, h) ==> ListingMeets(pr, template)
    ensures flags.outlook && flags.teams ==> (AdmittedSample(pr, flags, template, v, h) <==> ListingMeets(pr, template))
  {
    ListedSomewhereExactly(pr, template);
    var values := AllWords(pr) + {v, h};
    if path :| Instance(template, path) && Allowed(pr, flags, path) {
      var sample := Sampled(pr, template, path, v, h);
      SampledIsListed(pr, template, path, v, h);
      if SwitchedOff(pr, flags, sample) {
        SampledIsNotSwitchedOff(pr, flags, template, path, v, h);
      }
      FillingsExactly(template, values, sample);
    }
    if path :| path in Fillings(template, values) && Allowed(pr, flags, path) {
      FillingsExactly(template, values, path);
    }
  }

  // ---------------------------------------------------------------------------
  // Agreement, request by request
  // ---------------------------------------------------------------------------

  /** Mounted without being listed: only its gate keeps the route. */
  predicate GatedOnly(pr: Profile, template: Path) {
    Gated(pr, template) && !Listed(pr, template)
  }

  /** Listed only by text that carries a placeholder. */
  predicate ListedByBraces(pr: Profile, template: Path) {
    Listed(pr, template) && !ListedPlainly(pr, template)
  }

  /** Listed plainly, but some of its requests belong to a feature that is off. */
  predicate PartlyOff(pr: Profile, flags: Flags, template: Path) {
    ListedPlainly(pr, template) && GateReaches(pr, flags, template)
  }

  /** Neither gated nor listed, yet the guard would admit some of its requests. */
  predicate DroppedButMet(pr: Profile, flags: Flags, template: Path, v: string, h: string) {
    !Gated(pr, template) && !Listed(pr, template) && AdmittedSample(pr, flags, template, v, h)
  }

  /** On every request to the route, the guard admits it if and only if startup has kept the route. */
  ghost predicate PassesAgree(pr: Profile, startup: Flags, now: Flags, r: Route)
    requires r.path.Some?
  {
    forall path | Instance(Segments(r.path.value), path) :: Kept(pr, startup, r) <==> Allowed(pr, now, path)
  }

  /**
   Startup under any flags and the guard under any others agree on every request to a rooted
   route exactly when the route is none of the four: kept by its gate alone, listed by braces
   alone, listed plainly with a gate that is off in its way, or dropped although its requests
   meet some listing.
   */
  lemma PassesAgreeExactly(pr: Profile, startup: Flags, now: Flags, r: Route, v: string, h: string)
    requires r.path.Some? && Rooted(r.path.value) && FreshPair(pr, v, h)
    ensures var template := Segments(r.path.value);
            PassesAgree(pr, startup, now, r)
            <==> && !GatedOnly(pr, template) && !ListedByBraces(pr, template)
                 && !PartlyOff(pr, now, template) && !DroppedButMet(pr, now, template, v, h)
  {
    var template := Segments(r.path.value);
    RootedKeptExactly(pr, startup, r);
    ServedExactly(pr, now, template);
    AdmittedSomewhereExactly(pr, now, template, v, h);
    assert Instance(template, template);
    if ListedPlainly(pr, template) {
      PlainListingCoversInstances(pr, template, template);
    }
    assert Kept(pr, startup, r) ==> (PassesAgree(pr, startup, now, r) <==> Served(pr, now, template));
  }

  /** The two patterns that meet the box route's requests; no entry, pattern or prefix lists the route itself. */
  const ITEMS := Profile({},
    [[Lit("api"), Lit("ap"), Lit("items"), Any], [Lit("api"), Lit("ap"), Lit("items"), Lit("vendors"), Any]], [], {}, {}, [])

  const BOX_ROUTE: Path := ["api", "ap", "items", "{ap_item_id}", "box"]

  const BOX_REQUEST: Path := ["api", "ap", "items", "vendors", "box"]

  lemma BoxRouteIsUnlisted()
    ensures !Listed(ITEMS, BOX_ROUTE) && !Gated(ITEMS, BOX_ROUTE)
  {
    assert |ITEMS.patterns[0]| == 4 && |BOX_ROUTE| == 5;
    assert BOX_ROUTE[3][0] != "vendors"[0];
    assert !AtomMatches(ITEMS.patterns[1][3], BOX_ROUTE[3]);
  }

  lemma BoxRequestIsAdmitted(now: Flags)
    ensures Instance(BOX_ROUTE, BOX_REQUEST) && Allowed(ITEMS, now, BOX_REQUEST)
  {
    assert IsParam(BOX_ROUTE[3]) && !IsParam(BOX_ROUTE[0]) && !IsParam(BOX_ROUTE[1]) && !IsParam(BOX_ROUTE[2]) && !IsParam(BOX_ROUTE[4]);
    assert PatternMatches(ITEMS.patterns[1], BOX_REQUEST);
  }

  /** The box route is dropped at startup under all flags, and the guard admits its request for an item named `vendors`. */
  lemma BoxRouteIsDroppedButMet(startup: Flags, now: Flags, handler: nat, v: string, h: string)
    requires FreshPair(ITEMS, v, h)
    ensures Segments("/" + Join(BOX_ROUTE)) == BOX_ROUTE
    ensures !Kept(ITEMS, startup, Route(Some("/" + Join(BOX_ROUTE)), handler))
    ensures Instance(BOX_ROUTE, BOX_REQUEST) && Allowed(ITEMS, now, BOX_REQUEST)
    ensures DroppedButMet(ITEMS, now, BOX_ROUTE, v, h)
  {
    BoxSegments();
    BoxRouteIsUnlisted();
    BoxRequestIsAdmitted(now);
    RootedKeptExactly(ITEMS, startup, Route(Some("/" + Join(BOX_ROUTE)), handler));
    AdmittedSomewhereExactly(ITEMS, now, BOX_ROUTE, v, h);
  }

  lemma BoxSegments()
    ensures Segments("/" + Join(BOX_ROUTE)) == BOX_ROUTE
  {
    assert '/' !in BOX_ROUTE[0] && '/' !in BOX_ROUTE[1] && '/' !in BOX_ROUTE[2] && '/' !in BOX_ROUTE[3] && '/' !in BOX_ROUTE[4];
    SplitJoin(BOX_ROUTE);
    assert ("/" + Join(BOX_ROUTE))[1..] == Join(BOX_ROUTE);
  }

  lemma {:induction false} SplitWord(word: string)
    requires '/' !in word
    ensures Split(word) == [word]
  {
    if word != "" {
      SplitWord(word[1..]);
      assert word == [word[0]] + word[1..];
    }
  }

  /** Segments without slashes, joined, split back. */
  lemma {:induction false} SplitJoin(p: Path)
    requires |p| > 0 && forall i | 0 <= i < |p| :: '/' !in p[i]
    ensures Split(Join(p)) == p
  {
    SplitWord(p[0]);
    if |p| > 1 {
      SplitJoin(p[1..]);
      SplitAtSlash(p[0], Join(p[1..]));
    }
  }

  /** A route below a gated prefix that no table lists stays mounted under all flags, and the guard serves it under none. */
  lemma BelowPrefixIsGatedOnly(pr: Profile, startup: Flags, now: Flags, prefix: Path, template: Path, handler: nat)
    requires prefix in pr.teamsPrefixes && prefix <= template && !Listed(pr, template)
    requires |template| > 0 && forall i | 0 <= i < |template| :: '/' !in template[i]
    ensures GatedOnly(pr, template)
    ensures Segments("/" + Join(template)) == template
    ensures Kept(pr, startup, Route(Some("/" + Join(template)), handler)) && !Allowed(pr, now, template)
  {
    SplitJoin(template);
    assert ("/" + Join(template))[1..] == Join(template);
  }

  /** The interactive Teams path as the tables list and gate it, beside the gate on everything under its parent. */
  const INTERACTIVE: Path := ["teams", "invoices", "interactive"]
  const TEAMS := Profile({INTERACTIVE}, [], [], {}, {INTERACTIVE}, [["teams", "invoices"]])

  lemma AppendCancels(p: Path, q: Path, r: Path)
    requires q != r
    ensures p + q != p + r
  {
    assert (p + q)[|p|..] == q && (p + r)[|p|..] == r;
  }

  /** Any Teams route but the interactive one, at whatever depth, is kept and never served. */
  lemma TeamsRouteIsGatedOnly(startup: Flags, now: Flags, rest: Path, handler: nat)
    requires rest != ["interactive"] && forall i | 0 <= i < |rest| :: '/' !in rest[i]
    ensures var template := TEAMS.teamsPrefixes[0] + rest;
            && GatedOnly(TEAMS, template) && !Allowed(TEAMS, now, template)
            && Kept(TEAMS, startup, Route(Some("/" + Join(template)), handler))
  {
    var prefix := TEAMS.teamsPrefixes[0];
    assert INTERACTIVE == prefix + ["interactive"];
    AppendCancels(prefix, rest, ["interactive"]);
    assert '/' !in prefix[0] && '/' !in prefix[1];
    BelowPrefixIsGatedOnly(TEAMS, startup, now, prefix, prefix + rest, handler);
  }

  /** The interactive route itself is listed, and served exactly while the feature is on. */
  lemma InteractiveFollowsItsFlag(now: Flags)
    ensures ListedPlainly(TEAMS, INTERACTIVE)
    ensures PartlyOff(TEAMS, now, INTERACTIVE) <==> !now.teams
    ensures Served(TEAMS, now, INTERACTIVE) <==> now.teams
  {
    assert !IsParam(INTERACTIVE[0]) && !IsParam(INTERACTIVE[1]) && !IsParam(INTERACTIVE[2]);
    assert Instance(INTERACTIVE, INTERACTIVE);
    ServedExactly(TEAMS, now, INTERACTIVE);
  }

  // ---------------------------------------------------------------------------
  // The mounted route table
  // ---------------------------------------------------------------------------

  function Selected(pr: Profile, flags: Flags, routes: seq<Route>): seq<Route> {
    if routes == [] then []
    else
      var front := Selected(pr, flags, routes[..|routes| - 1]);
      if Kept(pr, flags, routes[|routes| - 1]) then front + [routes[|routes| - 1]] else front
  }

  /** A listed, gated path registered without its leading slash: the only kind of route a flag can unmount. */
  predicate FlagSensitive(pr: Profile, r: Route) {
    r.path.Some? && !Rooted(r.path.value) && Gated(pr, Segments(r.path.value)) && Listed(pr, Segments(r.path.value))
  }

  /** Whether a route stays mounted is independent of the flags exactly when it is not flag-sensitive. */
  lemma KeptExactly(pr: Profile, r: Route)
    ensures (forall f: Flags, g: Flags :: Kept(pr, f, r) == Kept(pr, g, r)) <==> !FlagSensitive(pr, r)
  {
    if FlagSensitive(pr, r) {
      assert Kept(pr, Flags(true, true), r) != Kept(pr, Flags(false, false), r);
    }
  }

  lemma {:induction false} SelectionIgnoresFlags(pr: Profile, f: Flags, g: Flags, routes: seq<Route>)
    requires forall r | r in routes :: !FlagSensitive(pr, r)
    ensures Selected(pr, f, routes) == Selected(pr, g, routes)
  {
    if routes != [] {
      SelectionIgnoresFlags(pr, f, g, routes[..|routes| - 1]);
      KeptExactly(pr, routes[|routes| - 1]);
    }
  }

  datatype AppState = AppState(routes: seq<Route>, full: Option<seq<Route>>, flags: Flags)

  datatype Op = ApplyProfile | SetFlags(flags: Flags)

  function Apply(pr: Profile, s: AppState): AppState {
    var full := if s.full.Some? then s.full.value else s.routes;
    AppState(Selected(pr, s.flags, full), Some(full), s.flags)
  }

  function Step(pr: Profile, s: AppState, op: Op): AppState {
    match op
    case ApplyProfile => Apply(pr, s)
    case SetFlags(flags) => s.(flags := flags)
  }

  ghost predicate IsRun(pr: Profile, hist: seq<AppState>, ops: seq<Op>) {
    && |hist| == |ops| + 1
    && forall k | 0 <= k < |ops| :: hist[k + 1] == Step(pr, hist[k], ops[k])
  }

  /**
   However profile applications and flag flips interleave, the mounted table is the original
   before the first application and the selection from the original ever after, whichever
   flags one selects with.
   */
  lemma {:induction false} TableDependsOnOriginalOnly(pr: Profile, hist: seq<AppState>, ops: seq<Op>, k: nat, flags: Flags)
    requires IsRun(pr, hist, ops) && hist[0].full.None? && k <= |ops|
    requires forall r | r in hist[0].routes :: !FlagSensitive(pr, r)
    ensures if exists j | 0 <= j < k :: ops[j] == ApplyProfile
            then hist[k].full == Some(hist[0].routes) && hist[k].routes == Selected(pr, flags, hist[0].routes)
            else hist[k].full == None && hist[k].routes == hist[0].routes
  {
    if k > 0 {
      TableDependsOnOriginalOnly(pr, hist, ops, k - 1, flags);
      SelectionIgnoresFlags(pr, hist[k - 1].flags, flags, hist[0].routes);
      assert hist[k] == Step(pr, hist[k - 1], ops[k - 1]);
    }
  }

  /** The positions of a list's elements in another, ascending: the list is the other with some elements left out. */
  ghost predicate StandsAt(kept: seq<Route>, all: seq<Route>, at: seq<nat>) {
    && |at| == |kept|
    && (forall k | 0 <= k < |at| :: at[k] < |all| && all[at[k]] == kept[k])
    && (forall j, k | 0 <= j < k < |at| :: at[j] < at[k])
  }

  /** What startup mounts: routes without a path, gated ones, and listed ones whose flag is on when they lack their leading slash. */
  predicate Mountable(pr: Profile, flags: Flags, r: Route) {
    || r.path.None?
    || (Rooted(r.path.value) && (Gated(pr, Segments(r.path.value)) || Listed(pr, Segments(r.path.value))))
    || (!Rooted(r.path.value) && Listed(pr, Segments(r.path.value)) && !SwitchedOff(pr, flags, Segments(r.path.value)))
  }

  lemma KeptIsMountable(pr: Profile, flags: Flags, r: Route)
    ensures Kept(pr, flags, r) <==> Mountable(pr, flags, r)
  {
    if r.path.Some? && Rooted(r.path.value) {
      RootedKeptExactly(pr, flags, r);
    }
  }

  /** The mounted routes are the mountable ones, each occurrence once, in their original order. */
  lemma {:induction false} MountedInOrder(pr: Profile, flags: Flags, routes: seq<Route>) returns (at: seq<nat>)
    ensures StandsAt(Selected(pr, flags, routes), routes, at)
    ensures forall i: nat | i < |routes| :: i in at <==> Mountable(pr, flags, routes[i])
  {
    at := [];
    if routes != [] {
      var n := |routes| - 1;
      at := MountedInOrder(pr, flags, routes[..n]);
      KeptIsMountable(pr, flags, routes[n]);
      assert forall k | 0 <= k < |at| :: at[k] < n && routes[at[k]] == routes[..n][at[k]];
      assert forall i | 0 <= i < n :: routes[..n][i] == routes[i];
      if Kept(pr, flags, routes[n]) {
        at := at + [n];
      }
    }
  }

  /** A table as it should be mounted from an original. */
  ghost predicate MountsExactly(pr: Profile, flags: Flags, original: seq<Route>, mounted: seq<Route>) {
    exists at: seq<nat> ::
      StandsAt(mounted, original, at) && forall i: nat | i < |original| :: i in at <==> Mountable(pr, flags, original[i])
  }

  /**
   After any run with at least one application of the profile, the mounted table is the original
   one with exactly the unmountable routes left out, whichever flags one judges by; a rooted route
   is then mounted exactly when it is gated or listed.
   */
  lemma MountedTableExactly(pr: Profile, hist: seq<AppState>, ops: seq<Op>, k: nat, flags: Flags)
    requires IsRun(pr, hist, ops) && hist[0].full.None? && k <= |ops|
    requires forall r | r in hist[0].routes :: !FlagSensitive(pr, r)
    requires exists j | 0 <= j < k :: ops[j] == ApplyProfile
    ensures MountsExactly(pr, flags, hist[0].routes, hist[k].routes)
  {
    TableDependsOnOriginalOnly(pr, hist, ops, k, flags);
    var at := MountedInOrder(pr, flags, hist[0].routes);
  }

  /** One application, under any flags and with flag-sensitive routes too. */
  lemma ApplyMountsExactly(pr: Profile, s: AppState)
    ensures Apply(pr, s).flags == s.flags
    ensures Apply(pr, s).full == Some(if s.full.Some? then s.full.value else s.routes)
    ensures MountsExactly(pr, s.flags, Apply(pr, s).full.value, Apply(pr, s).routes)
  {
    var at := MountedInOrder(pr, s.flags, Apply(pr, s).full.value);
  }

  /** The application object: its route table, the saved original, and the two feature flags. */
  class App {
    const profile: Profile
    var routes: seq<Route>
    var full: Option<seq<Route>>
    var flags: Flags

    function Now(): AppState
      reads this
    {
      AppState(routes, full, flags)
    }

    constructor (profile: Profile, routes: seq<Route>, flags: Flags)
      ensures this.profile == profile && Now() == AppState(routes, None, flags)
    {
      this.profile := profile;
      this.routes, this.full, this.flags := routes, None, flags;
    }

    method ApplyRuntimeSurfaceProfile()
      modifies this
      ensures Now() == Apply(profile, old(Now()))
    {
      var fullRoutes := routes;
      match full {
        case None => full := Some(fullRoutes);
        case Some(saved) => fullRoutes := saved;
      }
      var selected: seq<Route> := [];
      for i := 0 to |fullRoutes|
        invariant selected == Selected(profile, flags, fullRoutes[..i])
      {
        assert fullRoutes[..i + 1][..i] == fullRoutes[..i];
        var route := fullRoutes[i];
        if route.path.Some? {
          if GatedRoute(profile, route.path.value) {
            selected := selected + [route];
            continue;
          }
          if !Allowed(profile, flags, Segments(route.path.value)) {
            continue;
          }
        }
        selected := selected + [route];
      }
      assert fullRoutes[..|fullRoutes|] == fullRoutes;
      routes := selected;
    }
  }
}
