/** `PathMatcher` (src/analysis/path-matcher.ts): validated glob patterns, memoised matching, and the
    intensity of a set of files. */
module PathMatching {
  import opened Options
  import opened Decimal
  import opened Lists
  import opened Texts

  datatype Intensity = Light | Standard | Thorough

  function Level(i: Intensity): nat {
    match i
    case Light => 1
    case Standard => 2
    case Thorough => 3
  }

  function NameOf(i: Intensity): Text {
    match i
    case Light => U("light")
    case Standard => U("standard")
    case Thorough => U("thorough")
  }

  datatype PathPattern = PathPattern(pattern: Text, intensity: Intensity, description: Option<Text>)

  datatype Config = Config(enabled: bool, patterns: seq<PathPattern>, defaultIntensity: Intensity, allowSpaces: bool)

  /** `minimatch`: whether a pattern compiles, and what matching gives, if it does not throw. */
  datatype Glob = Glob(compiles: Text -> bool, matches: (Text, Text) -> Option<bool>)

  // ---- validation ----

  const MAX_PATTERN_LENGTH: nat := 500
  const MAX_COMPLEXITY_SCORE: nat := 50
  const COLON: Unit := 0x3A

  function Count(t: Text, u: Unit): nat {
    if t == [] then 0 else (if t[0] == u then 1 else 0) + Count(t[1..], u)
  }

  const DANGEROUS: Text := U("\\`|;&<>'\"$") + [0x7F]

  /** The third pass of the character check; the first two ban a subset of what it bans. */
  predicate Allowed(u: Unit, allowSpaces: bool) {
    || 0x41 <= u <= 0x5A || 0x61 <= u <= 0x7A || 0x30 <= u <= 0x39
    || u in U(".@+^!_-/*?{}[],()~#")
    || (allowSpaces && u == 0x20)
  }

  predicate AllowedCharacters(pattern: Text, allowSpaces: bool) {
    && (forall u | u in pattern :: u !in DANGEROUS)
    && pattern != [] && (forall u | u in pattern :: 0x20 <= u <= 0x7E)
    && (allowSpaces || 0x20 !in pattern)
    && (forall u | u in pattern :: Allowed(u, allowSpaces))
    && Count(pattern, 0x7B) == Count(pattern, 0x7D)
    && Count(pattern, 0x5B) == Count(pattern, 0x5D)
  }

  /** A `..` segment. */
  predicate Traverses(pattern: Text) {
    exists i :: 0 <= i < |pattern| && TraversesAt(pattern, i)
  }

  predicate TraversesAt(pattern: Text, i: nat) {
    && i + 2 <= |pattern| && pattern[i..i + 2] == U("..")
    && (i == 0 || pattern[i - 1] in {0x2F, 0x5C})
    && (i + 2 == |pattern| || pattern[i + 2] in {0x2F, 0x5C})
  }

  predicate ValidPattern(g: Glob, pattern: Text, allowSpaces: bool) {
    && |pattern| <= MAX_PATTERN_LENGTH
    && Count(pattern, 0x2A) * 2 + Count(pattern, 0x7B) * 3 <= MAX_COMPLEXITY_SCORE
    && (forall u | u in pattern :: u > 0x1F)
    && AllowedCharacters(pattern, allowSpaces)
    && !Traverses(pattern)
    && g.compiles(pattern)
  }

  predicate ValidConfig(g: Glob, config: Config) {
    forall p | p in config.patterns :: ValidPattern(g, p.pattern, config.allowSpaces)
  }

  /** Validation bans the colon. */
  lemma NoColon(g: Glob, pattern: Text, allowSpaces: bool)
    requires ValidPattern(g, pattern, allowSpaces)
    ensures COLON !in pattern
  {
    assert U(".@+^!_-/*?{}[],()~#") ==
      [0x2E, 0x40, 0x2B, 0x5E, 0x21, 0x5F, 0x2D, 0x2F, 0x2A, 0x3F,
       0x7B, 0x7D, 0x5B, 0x5D, 0x2C, 0x28, 0x29, 0x7E, 0x23];
    assert !Allowed(COLON, allowSpaces);
  }

  // ---- matching ----

  /** What the matcher answers without a cache: an exception counts as no match. */
  predicate Matches(g: Glob, file: Text, pattern: Text) {
    g.matches(file, pattern) == Some(true)
  }

  /** `${filePath}:${pattern}` */
  function CacheKey(file: Text, pattern: Text): Text {
    file + [COLON] + pattern
  }

  /** Without a colon in the patterns, a key belongs to one file and one pattern. */
  lemma KeyInjective(f: Text, p: Text, g: Text, q: Text)
    requires COLON !in p && COLON !in q && CacheKey(f, p) == CacheKey(g, q)
    ensures f == g && p == q
  {
    if |f| < |g| {
      PatternUnit(f, p, |g|);
    } else if |g| < |f| {
      PatternUnit(g, q, |f|);
    } else {
      var key := CacheKey(f, p);
      assert key[..|f|] == f && key[..|g|] == g && key[|f| + 1..] == p && key[|g| + 1..] == q;
    }
  }

  lemma PatternUnit(f: Text, p: Text, i: nat)
    requires |f| < i <= |f| + |p|
    ensures CacheKey(f, p)[i] in p
  {
    assert CacheKey(f, p)[i] == p[i - |f| - 1];
  }

  /** With a colon in a pattern, two pairs share a key. */
  lemma ColonCollides(f: Text, m: Text, p: Text)
    ensures CacheKey(f, m + [COLON] + p) == CacheKey(f + [COLON] + m, p)
  {
  }

  ghost predicate CacheRight(g: Glob, cache: map<Text, bool>) {
    forall file, pattern | COLON !in pattern && CacheKey(file, pattern) in cache ::
      cache[CacheKey(file, pattern)] == Matches(g, file, pattern)
  }

  lemma CacheStaysRight(g: Glob, cache: map<Text, bool>, file: Text, pattern: Text)
    requires CacheRight(g, cache) && COLON !in pattern
    ensures CacheRight(g, cache[CacheKey(file, pattern) := Matches(g, file, pattern)])
  {
    hide CacheKey, Matches;
    var key := CacheKey(file, pattern);
    forall f, p | COLON !in p && CacheKey(f, p) in cache[key := Matches(g, file, pattern)]
      ensures cache[key := Matches(g, file, pattern)][CacheKey(f, p)] == Matches(g, f, p)
    {
      if CacheKey(f, p) == key {
        KeyInjective(f, p, file, pattern);
      }
    }
  }

  // ---- intensity ----

  ghost predicate Pair(g: Glob, files: seq<Text>, patterns: seq<PathPattern>, file: Text, p: PathPattern) {
    file in files && p in patterns && Matches(g, file, p.pattern)
  }

  /** The highest intensity among the matching pairs, if there is one. */
  ghost predicate IsMaximum(g: Glob, files: seq<Text>, patterns: seq<PathPattern>, highest: Option<Intensity>) {
    if highest.None? then forall file, p :: !Pair(g, files, patterns, file, p)
    else
      && (exists file, p :: Pair(g, files, patterns, file, p) && p.intensity == highest.value)
      && (forall file, p :: Pair(g, files, patterns, file, p) ==> Level(p.intensity) <= Level(highest.value))
  }

  /** The order and the multiplicity of files and patterns play no part. */
  lemma MaximumIgnoresOrder(g: Glob, files: seq<Text>, patterns: seq<PathPattern>, highest: Option<Intensity>,
                            files': seq<Text>, patterns': seq<PathPattern>, highest': Option<Intensity>)
    requires (forall f :: f in files <==> f in files') && (forall p :: p in patterns <==> p in patterns')
    requires IsMaximum(g, files, patterns, highest) && IsMaximum(g, files', patterns', highest')
    ensures highest == highest'
  {
    hide Matches;
    forall f, p ensures Pair(g, files, patterns, f, p) <==> Pair(g, files', patterns', f, p) {
    }
  }

  /** The matching patterns of one file, in their order. */
  function PatternsOf(g: Glob, file: Text, patterns: seq<PathPattern>): (r: seq<PathPattern>)
    ensures forall p :: p in r <==> p in patterns && Matches(g, file, p.pattern)
  {
    if patterns == [] then []
    else
      var last := patterns[|patterns| - 1];
      PatternsOf(g, file, patterns[..|patterns| - 1]) + (if Matches(g, file, last.pattern) then [last] else [])
  }

  /** The files that match a pattern, in their order. */
  function MatchedFiles(g: Glob, files: seq<Text>, patterns: seq<PathPattern>): (r: seq<Text>)
    ensures forall f :: f in r <==> f in files && PatternsOf(g, f, patterns) != []
  {
    if files == [] then []
    else
      var last := files[|files| - 1];
      MatchedFiles(g, files[..|files| - 1], patterns) + (if PatternsOf(g, last, patterns) != [] then [last] else [])
  }

  /** The matching patterns of all files, file by file. */
  function MatchedPatterns(g: Glob, files: seq<Text>, patterns: seq<PathPattern>): seq<PathPattern> {
    if files == [] then []
    else
      MatchedPatterns(g, files[..|files| - 1], patterns) + PatternsOf(g, files[|files| - 1], patterns)
  }

  // ---- the reason ----

  const COMMA_SPACE: Text := U(", ")

  /** `join(', ')` */
  function Joined(ts: seq<Text>): Text {
    if ts == [] then []
    else if |ts| == 1 then ts[0]
    else ts[0] + (COMMA_SPACE + Joined(ts[1..]))
  }

  function PatternTexts(ps: seq<PathPattern>): seq<Text> {
    seq(|ps|, i requires 0 <= i < |ps| => ps[i].pattern)
  }

  /** The descriptions that are not empty. */
  function Descriptions(ps: seq<PathPattern>): seq<Text> {
    if ps == [] then []
    else
      (if ps[0].description.Some? && ps[0].description.value != [] then [ps[0].description.value] else [])
      + Descriptions(ps[1..])
  }

  const DISABLED: Text := U("Path-based intensity disabled or no patterns configured")

  /** `buildReason`: every pattern and every description is named once, where it first comes. */
  function Reason(intensity: Intensity, matched: seq<PathPattern>, paths: seq<Text>): Text {
    var using := U("Using ") + NameOf(intensity);
    if paths == [] then using + U(" review intensity (default)")
    else
      var descriptions := Unique(Descriptions(matched));
      using + U(" review intensity: matched ") + U(Numeral(|paths|)) + U(" file(s) against patterns: ")
      + Joined(Unique(PatternTexts(matched)))
      + (if descriptions != [] then U(". Reason: ") + Joined(descriptions) else [])
  }

  /** One more name in a list without repetition. */
  function Noted(paths: seq<Text>, file: Text): seq<Text> {
    if file in paths then paths else paths + [file]
  }

  /** The list after a file has been matched against some patterns. */
  function NotedIf(g: Glob, file: Text, some: seq<PathPattern>, paths: seq<Text>): seq<Text> {
    if PatternsOf(g, file, some) != [] then Noted(paths, file) else paths
  }

  lemma OnePatternMore(g: Glob, file: Text, some: seq<PathPattern>, p: PathPattern)
    ensures PatternsOf(g, file, some + [p])
         == PatternsOf(g, file, some) + (if Matches(g, file, p.pattern) then [p] else [])
  {
    hide Matches;
    assert (some + [p])[..|some|] == some;
  }

  lemma NotedMore(g: Glob, file: Text, some: seq<PathPattern>, p: PathPattern, paths: seq<Text>)
    ensures NotedIf(g, file, some + [p], paths)
         == if Matches(g, file, p.pattern) then Noted(NotedIf(g, file, some, paths), file)
            else NotedIf(g, file, some, paths)
  {
    hide Matches;
    assert (some + [p])[..|some|] == some;
  }

  lemma MatchedMore(g: Glob, files: seq<Text>, file: Text, patterns: seq<PathPattern>)
    ensures Unique(MatchedFiles(g, files + [file], patterns))
         == NotedIf(g, file, patterns, Unique(MatchedFiles(g, files, patterns)))
  {
    hide PatternsOf, Unique;
    assert (files + [file])[..|files|] == files;
    UniqueMore(MatchedFiles(g, files, patterns), file);
    assert MatchedFiles(g, files, patterns) + [] == MatchedFiles(g, files, patterns);
  }

  lemma UniqueMore(paths: seq<Text>, file: Text)
    ensures Unique(paths + [file]) == Noted(Unique(paths), file)
  {
    assert (paths + [file])[..|paths|] == paths;
  }

  /** The pairs looked at after a file has been matched against its first patterns: what they leave. */
  ghost predicate Reached(g: Glob, before: seq<Text>, file: Text, patterns: seq<PathPattern>, some: seq<PathPattern>,
                          highest: Option<Intensity>)
  {
    var own := PatternsOf(g, file, some);
    if highest.None? then own == [] && forall f, p :: !Pair(g, before, patterns, f, p)
    else
      && ((exists f, p :: Pair(g, before, patterns, f, p) && p.intensity == highest.value)
          || exists p :: p in own && p.intensity == highest.value)
      && (forall f, p :: Pair(g, before, patterns, f, p) ==> Level(p.intensity) <= Level(highest.value))
      && forall p | p in own :: Level(p.intensity) <= Level(highest.value)
  }

  lemma NothingMatched(g: Glob, patterns: seq<PathPattern>)
    ensures IsMaximum(g, [], patterns, None) && Unique([]) == Unique(MatchedFiles(g, [], patterns))
    ensures forall file, paths :: NotedIf(g, file, [], paths) == paths
    ensures forall file :: PatternsOf(g, file, []) == []
  {
  }

  lemma ReachedStart(g: Glob, before: seq<Text>, file: Text, patterns: seq<PathPattern>, h: Option<Intensity>)
    requires IsMaximum(g, before, patterns, h)
    ensures Reached(g, before, file, patterns, [], h)
  {
    hide Pair;
  }

  lemma ReachedNext(g: Glob, before: seq<Text>, file: Text, patterns: seq<PathPattern>, some: seq<PathPattern>,
                    p: PathPattern, h: Option<Intensity>)
    requires Reached(g, before, file, patterns, some, h)
    ensures Reached(g, before, file, patterns, some + [p],
      if Matches(g, file, p.pattern) && (h.None? || Level(p.intensity) > Level(h.value)) then Some(p.intensity) else h)
  {
    hide Matches, Pair;
    assert (some + [p])[..|some|] == some;
  }

  lemma ReachedEnd(g: Glob, before: seq<Text>, file: Text, patterns: seq<PathPattern>, h: Option<Intensity>)
    requires Reached(g, before, file, patterns, patterns, h)
    ensures IsMaximum(g, before + [file], patterns, h)
  {
    hide Matches;
    var own := PatternsOf(g, file, patterns);
    forall f, p ensures Pair(g, before + [file], patterns, f, p) <==>
      Pair(g, before, patterns, f, p) || (f == file && p in own)
    {
    }
    if h.Some? {
      if p :| p in own && p.intensity == h.value {
        assert Pair(g, before + [file], patterns, file, p);
      }
      if f, p :| Pair(g, before, patterns, f, p) && p.intensity == h.value {
        assert Pair(g, before + [file], patterns, f, p);
      }
    } else {
      assert forall f, p :: !Pair(g, before + [file], patterns, f, p);
    }
  }

  datatype IntensityResult = IntensityResult(intensity: Intensity, matchedPaths: seq<Text>, reason: Text)

  /** What a caller gets, whatever was matched before: the highest intensity, the matched files, each once, in the
      order in which they first come, and the reason these and the matching patterns give. */
  ghost predicate Decides(g: Glob, config: Config, files: seq<Text>, r: IntensityResult) {
    if !config.enabled || config.patterns == [] then r == IntensityResult(config.defaultIntensity, [], DISABLED)
    else
      && (exists highest :: IsMaximum(g, files, config.patterns, highest)
            && r.intensity == if highest.Some? then highest.value else config.defaultIntensity)
      && r.matchedPaths == Unique(MatchedFiles(g, files, config.patterns))
      && r.reason == Reason(r.intensity, MatchedPatterns(g, files, config.patterns), r.matchedPaths)
  }

  ghost predicate Requests(g: Glob, config: Config, files: seq<Text>, i: Intensity) {
    exists file, p :: Pair(g, files, config.patterns, file, p) && p.intensity == i
  }

  /** The review is thorough if a matching pattern asks for it, else standard if one asks for that, else light if one
      asks for that, and else the default. */
  lemma IntensityIff(g: Glob, config: Config, files: seq<Text>, r: IntensityResult)
    requires config.enabled && config.patterns != [] && Decides(g, config, files, r)
    ensures r.intensity ==
      if Requests(g, config, files, Thorough) then Thorough
      else if Requests(g, config, files, Standard) then Standard
      else if Requests(g, config, files, Light) then Light
      else config.defaultIntensity
  {
    hide Pair, MatchedFiles, MatchedPatterns, Unique, Reason;
    var highest :| IsMaximum(g, files, config.patterns, highest)
      && r.intensity == if highest.Some? then highest.value else config.defaultIntensity;
    if highest.Some? {
      var file, p :| Pair(g, files, config.patterns, file, p) && p.intensity == highest.value;
      assert Requests(g, config, files, highest.value);
    }
  }

  /** Two decisions on the same files and patterns, in any order and after any calls, agree. */
  lemma DecisionIgnoresOrder(g: Glob, a: Config, files: seq<Text>, r: IntensityResult,
                             b: Config, files': seq<Text>, r': IntensityResult)
    requires a.enabled == b.enabled && a.defaultIntensity == b.defaultIntensity
    requires (forall f :: f in files <==> f in files') && (forall p :: p in a.patterns <==> p in b.patterns)
    requires Decides(g, a, files, r) && Decides(g, b, files', r')
    ensures r.intensity == r'.intensity && multiset(r.matchedPaths) == multiset(r'.matchedPaths)
  {
    hide IsMaximum, Distinct, Matches, Unique, MatchedFiles, PatternsOf;
    assert a.patterns == [] <==> b.patterns == [] by {
      if a.patterns != [] {
        assert a.patterns[0] in b.patterns;
      }
      if b.patterns != [] {
        assert b.patterns[0] in a.patterns;
      }
    }
    if a.enabled && a.patterns != [] {
      var h :| IsMaximum(g, files, a.patterns, h) && r.intensity == if h.Some? then h.value else a.defaultIntensity;
      var h' :| IsMaximum(g, files', b.patterns, h')
        && r'.intensity == if h'.Some? then h'.value else b.defaultIntensity;
      MaximumIgnoresOrder(g, files, a.patterns, h, files', b.patterns, h');
      forall f ensures PatternsOf(g, f, a.patterns) != [] <==> PatternsOf(g, f, b.patterns) != [] {
        SamePatterns(g, f, a.patterns, b.patterns);
      }
      UniqueDistinct(MatchedFiles(g, files, a.patterns));
      UniqueDistinct(MatchedFiles(g, files', b.patterns));
      DistinctSameMembers(r.matchedPaths, r'.matchedPaths);
    }
  }

  lemma SamePatterns(g: Glob, file: Text, patterns: seq<PathPattern>, patterns': seq<PathPattern>)
    requires forall p :: p in patterns <==> p in patterns'
    ensures PatternsOf(g, file, patterns) != [] <==> PatternsOf(g, file, patterns') != []
  {
    hide Matches;
    var own, own' := PatternsOf(g, file, patterns), PatternsOf(g, file, patterns');
    assert forall p :: p in own <==> p in own';
    if own != [] {
      assert own[0] in own';
    }
    if own' != [] {
      assert own'[0] in own;
    }
  }

  // ---- the object ----

  class PathMatcher {
    const g: Glob
    const config: Config
    var matchCache: map<Text, bool>

    /** No cached answer differs from what matching would give. */
    ghost predicate Valid()
      reads this
    {
      ValidConfig(g, config) && CacheRight(g, matchCache)
    }

    /** The source throws for a configuration that is not valid. */
    constructor (g: Glob, config: Config)
      requires ValidConfig(g, config)
      ensures Valid() && this.g == g && this.config == config && matchCache == map[]
    {
      this.g := g;
      this.config := config;
      matchCache := map[];
    }

    method MatchesPattern(file: Text, pattern: Text) returns (r: bool)
      requires Valid() && COLON !in pattern
      modifies this
      ensures Valid() && r == Matches(g, file, pattern)
      ensures matchCache == old(matchCache)[CacheKey(file, pattern) := r]
    {
      var key := CacheKey(file, pattern);
      if key in matchCache {
        r := matchCache[key];
        assert matchCache == matchCache[key := r];
        return r;
      }
      CacheStaysRight(g, matchCache, file, pattern);
      r := g.matches(file, pattern) == Some(true);
      matchCache := matchCache[key := r];
    }

    method DetermineIntensity(files: seq<Text>) returns (r: IntensityResult)
      requires Valid()
      modifies this
      ensures Valid() && Decides(g, config, files, r)
    {
      hide ValidPattern, Matches, CacheRight, PatternsOf, Unique, MatchedFiles, NotedIf, IsMaximum, Reason, U;
      NothingMatched(g, config.patterns);
      if !config.enabled || config.patterns == [] {
        return IntensityResult(config.defaultIntensity, [], DISABLED);
      }
      var highest: Option<Intensity> := None;
      var matchedPaths: seq<Text> := [];
      var matchedPatterns: seq<PathPattern> := [];
      for i := 0 to |files|
        invariant Valid()
        invariant IsMaximum(g, files[..i], config.patterns, highest)
        invariant Unique(matchedPaths) == Unique(MatchedFiles(g, files[..i], config.patterns))
        invariant matchedPatterns == MatchedPatterns(g, files[..i], config.patterns)
      {
        highest, matchedPaths, matchedPatterns :=
          MatchFile(files[..i], files[i], highest, matchedPaths, matchedPatterns);
        assert files[..i] + [files[i]] == files[..i + 1] && files[..i + 1][..i] == files[..i];
        MatchedMore(g, files[..i], files[i], config.patterns);
      }
      assert files[..|files|] == files;
      var intensity := if highest.Some? then highest.value else config.defaultIntensity;
      return IntensityResult(intensity, Unique(matchedPaths), Reason(intensity, matchedPatterns, Unique(matchedPaths)));
    }

    /** The inner loop: one file against every pattern. */
    method MatchFile(before: seq<Text>, file: Text, highest: Option<Intensity>, matchedPaths: seq<Text>,
                     matchedPatterns: seq<PathPattern>)
        returns (h: Option<Intensity>, paths: seq<Text>, patterns: seq<PathPattern>)
      requires Valid()
      requires IsMaximum(g, before, config.patterns, highest)
      modifies this
      ensures Valid()
      ensures IsMaximum(g, before + [file], config.patterns, h)
      ensures Unique(paths) == NotedIf(g, file, config.patterns, Unique(matchedPaths))
      ensures patterns == matchedPatterns + PatternsOf(g, file, config.patterns)
    {
      hide ValidPattern, Matches, CacheRight, Pair, Reached, IsMaximum, Unique, PatternsOf, Noted, NotedIf;
      h, paths, patterns := highest, matchedPaths, matchedPatterns;
      ReachedStart(g, before, file, config.patterns, highest);
      NothingMatched(g, config.patterns);
      for j := 0 to |config.patterns|
        invariant Valid()
        invariant Reached(g, before, file, config.patterns, config.patterns[..j], h)
        invariant Unique(paths) == NotedIf(g, file, config.patterns[..j], Unique(matchedPaths))
        invariant patterns == matchedPatterns + PatternsOf(g, file, config.patterns[..j])
      {
        var p := config.patterns[j];
        assert p in config.patterns;
        NoColon(g, p.pattern, config.allowSpaces);
        ReachedNext(g, before, file, config.patterns, config.patterns[..j], p, h);
        assert config.patterns[..j + 1] == config.patterns[..j] + [p];
        NotedMore(g, file, config.patterns[..j], p, Unique(matchedPaths));
        OnePatternMore(g, file, config.patterns[..j], p);
        var matches := MatchesPattern(file, p.pattern);
        if matches {
          UniqueMore(paths, file);
          paths := paths + [file];
          patterns := patterns + [p];
          if h.None? || Level(p.intensity) > Level(h.value) {
            h := Some(p.intensity);
          }
        }
      }
      assert config.patterns[..|config.patterns|] == config.patterns;
      ReachedEnd(g, before, file, config.patterns, h);
    }
  }
}
