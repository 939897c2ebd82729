/** Printing and parsing the URLs of Google Compute Engine resources. */
module GceUrl {
  import opened Common
  import opened Text

  datatype GoogleCloudURL = GoogleCloudURL(
    version: string, project: string, kind: string, name: string, global: bool, region: string, zone: string)

  /** A field that can stand between two slashes. */
  predicate Plain(s: string) {
    Free('/', s)
  }

  /** The fields hold no slash, and the version is one that is parsed. */
  predicate Printable(u: GoogleCloudURL) {
    && Plain(u.project) && Plain(u.kind) && Plain(u.name) && Plain(u.region) && Plain(u.zone)
    && u.version in {"", "v1", "beta"}
  }

  /** Types that the parser takes for something else. */
  predicate Reserved(kind: string) {
    kind in {"projects", "zones", "global"}
  }

  function Version(u: GoogleCloudURL): string {
    if u.version == "" then "v1" else u.version
  }

  // ---------- printing ----------

  /** A label and a value, if there is one. */
  function Segment(tag: string, value: string): seq<string> {
    if value == "" then [] else [tag, value]
  }

  function Head(u: GoogleCloudURL): seq<string> {
    Site() + [Version(u)]
  }

  function Site(): seq<string> {
    ["https:"] + [""] + ["www.googleapis.com"] + ["compute"]
  }

  /** What stands between the slashes of the URL, after the host and the version. */
  function Path(u: GoogleCloudURL): seq<string> {
    Segment("projects", u.project) +
    (if u.global then ["global"] else []) +
    Segment("regions", u.region) +
    Segment("zones", u.zone) +
    [u.kind, u.name]
  }

  function Tokens(u: GoogleCloudURL): seq<string> {
    Head(u) + Path(u)
  }

  /** Parts, each followed by a slash. */
  function Slashed(parts: seq<string>): string {
    if parts == [] then "" else Slashed(parts[..|parts| - 1]) + parts[|parts| - 1] + "/"
  }

  lemma SlashedAdds(parts: seq<string>, part: string)
    ensures Slashed(parts + [part]) == Slashed(parts) + part + "/"
  {
  }

  lemma {:induction false} SlashedFirst(part: string, parts: seq<string>)
    ensures Slashed([part] + parts) == part + "/" + Slashed(parts)
  {
    if parts == [] {
      SlashedAdds([], part);
    } else {
      var init, last := parts[..|parts| - 1], parts[|parts| - 1];
      SlashedFirst(part, init);
      assert [part] + parts == ([part] + init) + [last];
      SlashedAdds([part] + init, last);
    }
  }

  lemma {:induction false} SlashedJoins(parts: seq<string>, last: string)
    ensures Slashed(parts) + last == Join('/', parts + [last])
  {
    if parts != [] {
      SlashedJoins(parts[1..], last);
      SlashedFirst(parts[0], parts[1..]);
      assert parts == [parts[0]] + parts[1..];
      assert (parts + [last])[1..] == parts[1..] + [last];
    }
  }

  lemma SlashedFive(a: string, b: string, c: string, d: string, e: string)
    ensures Slashed([a] + [b] + [c] + [d] + [e]) == a + "/" + b + "/" + c + "/" + d + "/" + e + "/"
  {
    SlashedAdds([], a);
    assert [] + [a] == [a];
    SlashedAdds([a], b);
    SlashedAdds([a] + [b], c);
    SlashedAdds([a] + [b] + [c], d);
    SlashedAdds([a] + [b] + [c] + [d], e);
  }

  const SiteURL := "https://www.googleapis.com/compute/"

  lemma SiteLiteral()
    ensures SiteURL == "https:" + "/" + "" + "/" + "www.googleapis.com" + "/" + "compute" + "/"
  {
  }

  lemma LabelLiterals()
    ensures "projects/" == "projects" + "/" && "regions/" == "regions" + "/" && "zones/" == "zones" + "/"
  {
  }

  lemma Preamble(version: string)
    ensures Slashed(Site() + [version]) == SiteURL + version + "/"
  {
    SlashedFive("https:", "", "www.googleapis.com", "compute", version);
    SiteLiteral();
  }

  lemma Regroup(a: string, b: string, c: string, d: string)
    ensures a + (b + c) + d == a + b + c + d
  {
  }

  lemma SegmentAdds(parts: seq<string>, tag: string, value: string)
    requires value != ""
    ensures Slashed(parts + Segment(tag, value)) == Slashed(parts) + (tag + "/") + value + "/"
  {
    SlashedAdds(parts, tag);
    SlashedAdds(parts + [tag], value);
    assert parts + Segment(tag, value) == parts + [tag] + [value];
    Regroup(Slashed(parts), tag, "/", value);
  }

  /** Append a labelled value, if there is one. */
  method AppendSegment(url: string, slashed: string, value: string, ghost parts: seq<string>, ghost tag: string)
    returns (r: string)
    requires url == Slashed(parts) && slashed == tag + "/"
    ensures r == Slashed(parts + Segment(tag, value))
  {
    r := url;
    if value != "" {
      r := r + slashed + value + "/";
      SegmentAdds(parts, tag, value);
    } else {
      assert parts + Segment(tag, value) == parts;
    }
  }

  method AppendGlobal(url: string, global: bool, ghost parts: seq<string>) returns (r: string)
    requires url == Slashed(parts)
    ensures r == Slashed(parts + if global then ["global"] else [])
  {
    r := url;
    if global {
      r := r + "global/";
      assert "global" + "/" == "global/";
      SlashedAdds(parts, "global");
    } else {
      assert parts + [] == parts;
    }
  }

  lemma LastAdds(parts: seq<string>, u: GoogleCloudURL)
    ensures Slashed(parts) + u.kind + "/" + u.name == Join('/', parts + [u.kind, u.name])
  {
    SlashedAdds(parts, u.kind);
    SlashedJoins(parts + [u.kind], u.name);
    assert parts + [u.kind] + [u.name] == parts + [u.kind, u.name];
  }

  lemma Associate(a: seq<string>, b: seq<string>, c: seq<string>, d: seq<string>, e: seq<string>, f: seq<string>)
    ensures a + b + c + d + e + f == a + (b + c + d + e + f)
  {
  }

  method BuildURL(u: GoogleCloudURL) returns (url: string)
    ensures url == Join('/', Tokens(u))
  {
    var version := u.version;
    if version == "" {
      version := "v1";
    }
    url := SiteURL + version + "/";
    Preamble(version);
    LabelLiterals();
    ghost var parts := Head(u);
    url := AppendSegment(url, "projects/", u.project, parts, "projects");
    parts := parts + Segment("projects", u.project);
    url := AppendGlobal(url, u.global, parts);
    parts := parts + if u.global then ["global"] else [];
    url := AppendSegment(url, "regions/", u.region, parts, "regions");
    parts := parts + Segment("regions", u.region);
    url := AppendSegment(url, "zones/", u.zone, parts, "zones");
    parts := parts + Segment("zones", u.zone);
    url := url + u.kind + "/" + u.name;
    LastAdds(parts, u);
    Associate(Head(u), Segment("projects", u.project), if u.global then ["global"] else [],
      Segment("regions", u.region), Segment("zones", u.zone), [u.kind, u.name]);
  }

  // ---------- parsing ----------

  /** Read the path from token `pos` on into `parsed`. */
  function ParsePath(tokens: seq<string>, pos: nat, parsed: GoogleCloudURL): Option<GoogleCloudURL>
    decreases |tokens| - pos
  {
    if pos >= |tokens| then None
    else
      var t := tokens[pos];
      if t == "projects" then
        if pos + 1 >= |tokens| then None else ParsePath(tokens, pos + 2, parsed.(project := tokens[pos + 1]))
      else if t == "zones" then
        if pos + 1 >= |tokens| then None else ParsePath(tokens, pos + 2, parsed.(zone := tokens[pos + 1]))
      else if t == "regions" && pos + 2 < |tokens| then
        ParsePath(tokens, pos + 2, parsed.(region := tokens[pos + 1]))
      else if t == "global" then ParsePath(tokens, pos + 1, parsed.(global := true))
      else if pos + 2 == |tokens| then Some(parsed.(kind := t, name := tokens[pos + 1]))
      else None
  }

  function Blank(version: string): GoogleCloudURL {
    GoogleCloudURL(version, "", "", "", false, "", "")
  }

  function Parse(url: string): Option<GoogleCloudURL> {
    var tokens := Split('/', url);
    if |tokens| < 5 || tokens[..4] != Site() then None
    else if tokens[4] !in {"v1", "beta"} then None
    else ParsePath(tokens, 5, Blank(tokens[4]))
  }

  method ParseGoogleCloudURL(u: string) returns (r: Option<GoogleCloudURL>)
    ensures r == Parse(u)
  {
    var tokens := Split('/', u);
    if |tokens| < 3 {
      return None;
    }
    if tokens[0] != "https:" || tokens[1] != "" || tokens[2] != "www.googleapis.com" {
      return None;
    }
    if |tokens| < 5 || tokens[3] != "compute" {
      return None;
    }
    if tokens[4] != "v1" && tokens[4] != "beta" {
      return None;
    }
    assert tokens[..4] == Site();
    var parsed := Blank(tokens[4]);
    var pos := 5;
    while true
      invariant 5 <= pos <= |tokens|
      invariant Parse(u) == ParsePath(tokens, pos, parsed)
      decreases |tokens| - pos
    {
      if pos >= |tokens| {
        return None;
      }
      var t := tokens[pos];
      if t == "projects" {
        pos := pos + 1;
        if pos >= |tokens| {
          return None;
        }
        parsed := parsed.(project := tokens[pos]);
      } else if t == "zones" {
        pos := pos + 1;
        if pos >= |tokens| {
          return None;
        }
        parsed := parsed.(zone := tokens[pos]);
      } else if t == "regions" && pos + 2 < |tokens| {
        pos := pos + 1;
        parsed := parsed.(region := tokens[pos]);
      } else if t == "global" {
        parsed := parsed.(global := true);
      } else {
        parsed := parsed.(kind := tokens[pos]);
        pos := pos + 1;
        if pos >= |tokens| {
          return None;
        }
        parsed := parsed.(name := tokens[pos]);
        pos := pos + 1;
        if pos != |tokens| {
          return None;
        } else {
          return Some(parsed);
        }
      }
      pos := pos + 1;
    }
  }

  // ---------- the round trip ----------

  /** The path of `u` from a point on, with what has been read of it before. */
  lemma ParseType(tokens: seq<string>, pos: nat, parsed: GoogleCloudURL, kind: string, name: string)
    requires pos + 2 == |tokens| && tokens[pos..] == [kind, name]
    ensures ParsePath(tokens, pos, parsed) == if Reserved(kind) then None else Some(parsed.(kind := kind, name := name))
  {
    assert tokens[pos] == kind && tokens[pos + 1] == name;
    if kind == "global" {
      var seen := parsed.(global := true);
      assert ParsePath(tokens, pos + 2, seen.(project := name)) == None;
      assert ParsePath(tokens, pos + 2, seen.(zone := name)) == None;
      assert ParsePath(tokens, pos + 1, seen) == None;
    }
  }

  lemma ParseZone(tokens: seq<string>, pos: nat, parsed: GoogleCloudURL, u: GoogleCloudURL)
    requires pos <= |tokens| && parsed.zone == ""
    requires tokens[pos..] == Segment("zones", u.zone) + [u.kind, u.name]
    ensures ParsePath(tokens, pos, parsed) ==
      if Reserved(u.kind) then None else Some(parsed.(zone := u.zone, kind := u.kind, name := u.name))
  {
    if u.zone == "" {
      ParseType(tokens, pos, parsed, u.kind, u.name);
    } else {
      assert tokens[pos] == tokens[pos..][0] && tokens[pos + 1] == tokens[pos..][1];
      assert tokens[pos + 2..] == tokens[pos..][2..];
      ParseType(tokens, pos + 2, parsed.(zone := u.zone), u.kind, u.name);
    }
  }

  lemma ParseRegion(tokens: seq<string>, pos: nat, parsed: GoogleCloudURL, u: GoogleCloudURL)
    requires pos <= |tokens| && parsed.region == "" && parsed.zone == ""
    requires tokens[pos..] ==
      Segment("regions", u.region) +
      Segment("zones", u.zone) + [u.kind, u.name]
    ensures ParsePath(tokens, pos, parsed) ==
      if Reserved(u.kind) then None
      else Some(parsed.(region := u.region, zone := u.zone, kind := u.kind, name := u.name))
  {
    if u.region == "" {
      ParseZone(tokens, pos, parsed, u);
    } else {
      assert tokens[pos] == tokens[pos..][0] && tokens[pos + 1] == tokens[pos..][1];
      assert tokens[pos + 2..] == tokens[pos..][2..];
      ParseZone(tokens, pos + 2, parsed.(region := u.region), u);
    }
  }

  lemma ParseGlobal(tokens: seq<string>, pos: nat, parsed: GoogleCloudURL, u: GoogleCloudURL)
    requires pos <= |tokens| && parsed.region == "" && parsed.zone == "" && !parsed.global
    requires tokens[pos..] ==
      (if u.global then ["global"] else []) +
      Segment("regions", u.region) +
      Segment("zones", u.zone) + [u.kind, u.name]
    ensures ParsePath(tokens, pos, parsed) ==
      if Reserved(u.kind) then None
      else Some(parsed.(global := u.global, region := u.region, zone := u.zone, kind := u.kind, name := u.name))
  {
    if !u.global {
      ParseRegion(tokens, pos, parsed, u);
    } else {
      assert tokens[pos] == tokens[pos..][0];
      assert tokens[pos + 1..] == tokens[pos..][1..];
      ParseRegion(tokens, pos + 1, parsed.(global := true), u);
    }
  }

  lemma ParseProject(tokens: seq<string>, pos: nat, version: string, u: GoogleCloudURL)
    requires pos <= |tokens| && tokens[pos..] == Path(u)
    ensures ParsePath(tokens, pos, Blank(version)) == if Reserved(u.kind) then None else Some(u.(version := version))
  {
    if u.project == "" {
      ParseGlobal(tokens, pos, Blank(version), u);
    } else {
      assert tokens[pos] == tokens[pos..][0] && tokens[pos + 1] == tokens[pos..][1];
      assert tokens[pos + 2..] == tokens[pos..][2..];
      ParseGlobal(tokens, pos + 2, Blank(version).(project := u.project), u);
    }
  }

  predicate AllPlain(parts: seq<string>) {
    forall t | t in parts :: Plain(t)
  }

  lemma TogetherPlain(a: seq<string>, b: seq<string>)
    requires AllPlain(a) && AllPlain(b)
    ensures AllPlain(a + b)
  {
  }

  lemma SegmentIsPlain(tag: string, value: string)
    requires Plain(tag) && Plain(value)
    ensures AllPlain(Segment(tag, value))
  {
  }

  lemma HeadIsPlain(u: GoogleCloudURL)
    requires Printable(u)
    ensures AllPlain(Head(u))
  {
    assert Plain("https:") && Plain("") && Plain("www.googleapis.com") && Plain("compute");
    assert Plain("v1") && Plain("beta");
    assert Plain(Version(u));
  }

  lemma TokensArePlain(u: GoogleCloudURL)
    requires Printable(u)
    ensures AllPlain(Tokens(u))
  {
    var projects, global := Segment("projects", u.project), if u.global then ["global"] else [];
    var regions, zones := Segment("regions", u.region), Segment("zones", u.zone);
    assert Plain("projects") && Plain("global") && Plain("regions") && Plain("zones");
    SegmentIsPlain("projects", u.project);
    SegmentIsPlain("regions", u.region);
    SegmentIsPlain("zones", u.zone);
    TogetherPlain(projects, global);
    TogetherPlain(projects + global, regions);
    TogetherPlain(projects + global + regions, zones);
    TogetherPlain(projects + global + regions + zones, [u.kind, u.name]);
    HeadIsPlain(u);
    TogetherPlain(Head(u), Path(u));
  }

  /** What is printed is parsed back, an empty version as v1, unless the type is reserved; and then it
    * is not parsed at all. */
  lemma RoundTrip(u: GoogleCloudURL)
    requires Printable(u)
    ensures Parse(Join('/', Tokens(u))) == if Reserved(u.kind) then None else Some(u.(version := Version(u)))
  {
    var tokens := Tokens(u);
    TokensArePlain(u);
    assert forall t | t in tokens :: Plain(t);
    SplitJoin('/', tokens);
    assert tokens[..4] == Site() && tokens[5..] == Path(u);
    ParseProject(tokens, 5, Version(u), u);
  }

  /** What was read of a path is plain, of the version it started with, and not of a reserved type. */
  lemma {:induction false} ParsedFields(tokens: seq<string>, pos: nat, parsed: GoogleCloudURL)
    requires AllPlain(tokens) && Plain(parsed.project) && Plain(parsed.region) && Plain(parsed.zone)
    ensures ParsePath(tokens, pos, parsed).Some? ==>
      var u := ParsePath(tokens, pos, parsed).value;
      && u.version == parsed.version && !Reserved(u.kind)
      && Plain(u.project) && Plain(u.kind) && Plain(u.name) && Plain(u.region) && Plain(u.zone)
    decreases |tokens| - pos
  {
    if pos < |tokens| {
      var t := tokens[pos];
      assert t in tokens && (pos + 1 < |tokens| ==> tokens[pos + 1] in tokens);
      if t == "global" {
        ParsedFields(tokens, pos + 1, parsed.(global := true));
      } else if pos + 1 < |tokens| {
        var value := tokens[pos + 1];
        if t == "projects" {
          ParsedFields(tokens, pos + 2, parsed.(project := value));
        } else if t == "zones" {
          ParsedFields(tokens, pos + 2, parsed.(zone := value));
        } else if t == "regions" && pos + 2 < |tokens| {
          ParsedFields(tokens, pos + 2, parsed.(region := value));
        }
      }
    }
  }

  /** Printing what was parsed gives a URL that is parsed the same way. */
  lemma ParsedPrintsBack(url: string)
    requires Parse(url).Some?
    ensures Parse(Join('/', Tokens(Parse(url).value))) == Parse(url)
  {
    var tokens, u := Split('/', url), Parse(url).value;
    assert AllPlain(tokens);
    ParsedFields(tokens, 5, Blank(tokens[4]));
    RoundTrip(u);
  }
}
