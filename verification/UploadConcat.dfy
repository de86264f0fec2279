/**
 The Upload-Concat header: parseConcat and extractIDFromURL against the list that HeadFile
 prints with absFileURL (unrouted.go).
 */
module UploadConcat {
  import opened Prelude
  import opened Strings

  /** The base path after Config.validate, and what absFileURL takes from the request. */
  datatype Location = Location(isAbs: bool, basePath: string, https: bool, host: string)

  /** absFileURL */
  function AbsFileURL(loc: Location, id: string): string {
    if loc.isAbs then loc.basePath + id
    else Origin(loc) + loc.basePath + id
  }

  function Origin(loc: Location): string {
    (if loc.https then "https" else "http") + "://" + loc.host
  }

  /** A URL under a relative base path is absolute, names the host, and is https exactly if the request was. */
  lemma URLNamesHost(loc: Location, id: string)
    requires !loc.isAbs
    ensures var url := AbsFileURL(loc, id);
            && ("https://" <= url <==> loc.https) && ("http://" <= url <==> !loc.https)
            && url[if loc.https then 8 else 7..] == loc.host + loc.basePath + id
  {
    var url := AbsFileURL(loc, id);
    var scheme := if loc.https then "https://" else "http://";
    assert url == scheme + (loc.host + loc.basePath + id);
    assert url[4] == scheme[4] && scheme[4] == (if loc.https then 's' else ':');
    assert "https://"[4] == 's' && "http://"[4] == ':';
  }

  datatype ConcatError = ErrNotFound | ErrInvalidConcat

  /** What parseConcat returns. */
  datatype Concat = Concat(isPartial: bool, isFinal: bool, ids: seq<string>, error: Option<ConcatError>)

  /** extractIDFromURL; None is ErrNotFound. */
  function ExtractID(url: string, basePath: string): Option<string> {
    match CutAfter(url, basePath)
    case None => None
    case Some(id) => Some(Trim(id, c => c == '/'))
  }

  /** The identifiers of the URLs in order, up to the first URL without one. */
  function ExtractAll(urls: seq<string>, basePath: string): (seq<string>, bool) {
    if urls == [] then ([], true)
    else
      match ExtractID(urls[0], basePath)
      case None => ([], false)
      case Some(id) =>
        var (ids, ok) := ExtractAll(urls[1..], basePath);
        ([id] + ids, ok)
  }

  function ParseConcat(header: string, basePath: string): Concat {
    if header == "" then Concat(false, false, [], None)
    else if header == "partial" then Concat(true, false, [], None)
    else if "final;" <= header && |header| > 6 then
      var (ids, ok) := ExtractAll(Fields(header[6..]), basePath);
      if !ok then Concat(false, true, ids, Some(ErrNotFound))
      else if ids == [] then Concat(false, false, [], Some(ErrInvalidConcat))
      else Concat(false, true, ids, None)
    else Concat(false, false, [], None)
  }

  lemma {:induction false} ExtractAllSnoc(urls: seq<string>, basePath: string, last: string)
    requires ExtractAll(urls, basePath).1
    ensures ExtractAll(urls + [last], basePath)
         == match ExtractID(last, basePath)
            case None => (ExtractAll(urls, basePath).0, false)
            case Some(id) => (ExtractAll(urls, basePath).0 + [id], true)
  {
    hide ExtractID;
    if urls == [] {
      assert urls + [last] == [last] && [last][1..] == [];
      if ExtractID(last, basePath).Some? {
        var id := ExtractID(last, basePath).value;
        assert [id] + [] == [] + [id];
      }
    } else {
      assert (urls + [last])[1..] == urls[1..] + [last];
      ExtractAllSnoc(urls[1..], basePath, last);
      var first, ids := ExtractID(urls[0], basePath).value, ExtractAll(urls[1..], basePath).0;
      if ExtractID(last, basePath).Some? {
        assert [first] + (ids + [ExtractID(last, basePath).value])
             == ([first] + ids) + [ExtractID(last, basePath).value];
      }
    }
  }

  lemma {:induction false} ExtractAllStops(urls: seq<string>, basePath: string, rest: seq<string>)
    requires !ExtractAll(urls, basePath).1
    ensures ExtractAll(urls + rest, basePath) == ExtractAll(urls, basePath)
  {
    assert (urls + rest)[1..] == urls[1..] + rest;
    if ExtractID(urls[0], basePath).Some? {
      ExtractAllStops(urls[1..], basePath, rest);
    }
  }

  /** The URLs of a header for a final upload. */
  function URLsOf(header: string): Option<seq<string>> {
    if "final;" <= header && |header| > 6 then Some(Fields(header[6..])) else None
  }

  lemma {:induction false} ExtractAllIff(urls: seq<string>, basePath: string)
    ensures ExtractAll(urls, basePath).1 <==> forall url :: url in urls ==> Contains(url, basePath)
    ensures ExtractAll(urls, basePath).1 ==> |ExtractAll(urls, basePath).0| == |urls|
  {
    hide Trim;
    if urls != [] {
      ExtractAllIff(urls[1..], basePath);
      assert urls == [urls[0]] + urls[1..];
      CutIff(urls[0], basePath);
    }
  }

  /**
   The identifier of a URL is what stands behind the first base path in it, without the slashes at
   its ends.
   */
  lemma ExtractedID(url: string, basePath: string, k: nat) returns (l: nat, r: nat)
    requires Index(url, basePath) == Some(k)
    ensures k + |basePath| <= |url| && ExtractID(url, basePath).Some?
    ensures var rest := url[k + |basePath|..];
            var id := ExtractID(url, basePath).value;
            && (id == "" || (id[0] != '/' && id[|id| - 1] != '/'))
            && l <= r <= |rest| && rest[l..r] == id && forall i :: 0 <= i < l || r <= i < |rest| ==> rest[i] == '/'
  {
    hide TrimLeft, TrimRight, Trim;
    var rest := url[k + |basePath|..];
    l, r := TrimmedEnds(rest, c => c == '/');
  }

  lemma CutIff(s: string, sub: string)
    ensures CutAfter(s, sub).Some? <==> Contains(s, sub)
  {}

  /**
   What a header asks for: a partial upload by "partial" and nothing else, a final one by "final;"
   and at least one URL, all with the base path; an error where a URL lacks it or there is none;
   and an upload of neither kind by any other header.
   */
  lemma FormOfHeader(header: string, basePath: string)
    ensures var c := ParseConcat(header, basePath);
            var urls := URLsOf(header);
            var all := urls.Some? && forall url :: url in urls.value ==> Contains(url, basePath);
            && (c.isPartial <==> header == "partial")
            && (c.error == Some(ErrNotFound) <==> urls.Some? && !all)
            && (c.error == Some(ErrInvalidConcat) <==> urls == Some([]))
            && (c.isFinal && c.error.None? <==> all && urls.value != [])
            && (c.isFinal && c.error.None? ==> |c.ids| == |urls.value|)
            && (c.isFinal ==> urls.Some? && !c.isPartial)
  {
    hide Fields, ExtractID;
    if URLsOf(header).Some? {
      assert header[0] == 'f';
      ExtractAllIff(URLsOf(header).value, basePath);
    }
  }

  method ParseConcatHeader(header: string, basePath: string) returns (c: Concat)
    ensures c == ParseConcat(header, basePath)
  {
    hide Fields, ExtractID;
    if header == "" {
      return Concat(false, false, [], None);
    }
    if header == "partial" {
      return Concat(true, false, [], None);
    }
    if "final;" <= header && |header| > 6 {
      var list := Fields(header[6..]);
      var ids := [];
      for i := 0 to |list|
        invariant ExtractAll(list[..i], basePath) == (ids, true)
      {
        assert list[..i + 1] == list[..i] + [list[i]];
        ExtractAllSnoc(list[..i], basePath, list[i]);
        var id := ExtractID(list[i], basePath);
        if id.None? {
          assert list == list[..i + 1] + list[i + 1..];
          ExtractAllStops(list[..i + 1], basePath, list[i + 1..]);
          return Concat(false, true, ids, Some(ErrNotFound));
        }
        ids := ids + [id.value];
      }
      assert list[..|list|] == list;
      if |ids| == 0 {
        return Concat(false, false, [], Some(ErrInvalidConcat));
      }
      return Concat(false, true, ids, None);
    }
    return Concat(false, false, [], None);
  }

  // ------------------------------------------------------------------ what HEAD prints

  function Spaced(loc: Location, ids: seq<string>): string {
    if ids == [] then "" else Spaced(loc, ids[..|ids| - 1]) + (AbsFileURL(loc, ids[|ids| - 1]) + " ")
  }

  /** The Upload-Concat header of a final upload. */
  function Printed(loc: Location, ids: seq<string>): string {
    TrimRight("final;" + Spaced(loc, ids), c => c == ' ')
  }

  method PrintFinal(loc: Location, partialUploads: seq<string>) returns (v: string)
    ensures v == Printed(loc, partialUploads)
  {
    hide AbsFileURL;
    v := "final;";
    for i := 0 to |partialUploads|
      invariant v == "final;" + Spaced(loc, partialUploads[..i])
    {
      assert partialUploads[..i + 1][..i] == partialUploads[..i];
      v := v + (AbsFileURL(loc, partialUploads[i]) + " ");
    }
    assert partialUploads[..|partialUploads|] == partialUploads;
    v := TrimRight(v, c => c == ' ');
  }

  // ------------------------------------------------------------------ the round trip

  predicate PlainID(id: string) {
    id != "" && NoSpace(id) && id[0] != '/' && id[|id| - 1] != '/'
  }

  /** What Config.validate leaves of a base path, without white space, under a host without slashes. */
  predicate PlainLocation(loc: Location) {
    && NoSpace(loc.basePath)
    && if loc.isAbs then loc.basePath != ""
       else NoSpace(loc.host) && '/' !in loc.host && (loc.basePath != "" ==> loc.basePath[0] == '/')
  }

  /** The base path does not occur in a printed URL before its place: not from either slash in front of the host. */
  predicate Unambiguous(loc: Location) {
    || loc.isAbs
    || (loc.basePath != "" && (loc.host == "" || FirstPlace(loc.host, loc.basePath) == 2 + |loc.host|))
  }

  /** How far behind the scheme and its colon the base path first occurs. */
  function FirstPlace(host: string, base: string): nat {
    if base <= "//" + host + base then 0
    else if base <= "/" + host + base then 1
    else 2 + |host|
  }

  /** A printed URL behind its scheme, up to the identifier. */
  function Tail(host: string, base: string): string {
    "//" + host + base
  }

  lemma TailShape(host: string, base: string)
    requires '/' !in host
    ensures var y := Tail(host, base);
            && |y| == 2 + |host| + |base| && y[0..] == y && y[1..] == "/" + host + base && y[2 + |host|..] == base
            && forall j :: 2 <= j < 2 + |host| ==> y[j] != '/'
  {
    var y := Tail(host, base);
    forall j | 2 <= j < 2 + |host|
      ensures y[j] != '/'
    {
      assert y[j] == host[j - 2] && host[j - 2] in host;
    }
  }

  /** For a base path of one segment that means that the segment is not the host's name. */
  lemma OneSegment(loc: Location, seg: string)
    requires !loc.isAbs && seg != "" && '/' !in seg && '/' !in loc.host && loc.basePath == "/" + seg + "/"
    ensures Unambiguous(loc) <==> seg != loc.host
  {
    var host, base := loc.host, loc.basePath;
    assert base[1] == seg[0] && seg[0] in seg && ("//" + host + base)[1] == '/';
    SegmentBefore(seg, host, "/", base);
    assert base == "/" + (seg + "/") && "/" + host + base == "/" + (host + base);
    PrefixBehind("/", seg + "/", host + base);
  }

  /** The base path of the root occurs in front of every host. */
  lemma RootIsAmbiguous(loc: Location)
    requires !loc.isAbs && loc.basePath == "/"
    ensures Unambiguous(loc) <==> loc.host == ""
  {}

  lemma PrefixBehind(p: string, a: string, b: string)
    ensures p + a <= p + b <==> a <= b
  {
    if p + a <= p + b {
      assert (p + b)[|p|..|p + a|] == (p + a)[|p|..] == a;
      assert b[..|a|] == (p + b)[|p|..|p + a|];
    }
    if a <= b {
      assert b == a + b[|a|..] && p + b == (p + a) + b[|a|..];
    }
  }

  /** The first slash ends the word in front of it. */
  lemma FirstSlash(word: string, rest: string)
    requires '/' !in word && rest != "" && rest[0] == '/'
    ensures (word + rest)[|word|] == '/' && forall j :: 0 <= j < |word| ==> (word + rest)[j] == word[j] != '/'
  {
    forall j | 0 <= j < |word|
      ensures (word + rest)[j] == word[j] != '/'
    {
      assert word[j] in word;
    }
  }

  /** A word with a slash behind it starts another such text only if the words are the same. */
  lemma SegmentBefore(seg: string, host: string, slash: string, base: string)
    requires '/' !in seg && '/' !in host && slash == "/" && base != "" && base[0] == '/'
    ensures seg + slash <= host + base <==> seg == host
  {
    var a, b := seg + slash, host + base;
    FirstSlash(seg, slash);
    FirstSlash(host, base);
    if a <= b {
      assert a[|seg|] == b[|seg|] && |seg| >= |host|;
      assert |host| < |a| && a[|host|] == b[|host|] && |host| >= |seg|;
      assert seg == a[..|seg|] && host == b[..|host|];
    }
    if seg == host {
      assert b == a + base[1..];
    }
  }

  lemma OccursInMiddle(p: string, y: string, id: string, base: string, k: nat)
    requires k + |base| <= |y|
    ensures OccursAt(p + y + id, base, |p| + k) <==> base <= y[k..]
  {
    var url := p + y + id;
    assert url[|p| + k..|p| + k + |base|] == y[k..k + |base|] == y[k..][..|base|];
  }

  lemma CharOf(p: string, y: string, id: string, i: nat)
    requires i < |p + y|
    ensures if i < |p| then (p + y + id)[i] == p[i] && p[i] in p else (p + y + id)[i] == y[i - |p|]
  {}

  lemma StartsWithSlash(p: string, y: string, id: string, base: string, i: nat)
    requires '/' !in p && base != "" && base[0] == '/' && i < |p + y| && OccursAt(p + y + id, base, i)
    ensures |p| <= i && y[i - |p|] == '/'
  {
    CharOf(p, y, id, i);
    OccursWithin(p + y + id, base, i);
    assert (p + y + id)[i + 0] == '/';
  }

  /** Where the first occurrence of the base path in a printed URL is; p is the scheme and its colon. */
  lemma FirstOccurrence(p: string, host: string, base: string, id: string)
    requires '/' !in p && '/' !in host && base != "" && base[0] == '/'
    ensures Index(p + Tail(host, base) + id, base) == Some(|p| + FirstPlace(host, base))
  {
    hide OccursAt, Index, Tail;
    TailShape(host, base);
    var y, k := Tail(host, base), FirstPlace(host, base);
    PlaceIsFirst(host, base);
    forall i | 0 <= i < |p| + k
      ensures !OccursAt(p + y + id, base, i)
    {
      if OccursAt(p + y + id, base, i) {
        StartsWithSlash(p, y, id, base, i);
        OccursInMiddle(p, y, id, base, i - |p|);
      }
    }
    OccursInMiddle(p, y, id, base, k);
    IndexIs(p + y + id, base, |p| + k);
  }

  lemma PlaceIsFirst(host: string, base: string)
    requires '/' !in host
    ensures var y, k := Tail(host, base), FirstPlace(host, base);
            && k + |base| <= |y| && base <= y[k..]
            && forall j :: 0 <= j < k ==> base <= y[j..] ==> y[j] != '/'
  {
    TailShape(host, base);
    hide Tail;
    var y := Tail(host, base);
    assert y == "//" + host + base by { TailIs(host, base); }
  }

  lemma TailIs(host: string, base: string)
    ensures Tail(host, base) == "//" + host + base
  {}

  /** What is left in front of the identifier when the base path is cut off too early. */
  function Extra(host: string, base: string): string
    requires '/' !in host
  {
    PlaceIsFirst(host, base);
    Tail(host, base)[FirstPlace(host, base) + |base|..]
  }

  lemma CutRelative(p: string, host: string, base: string, id: string)
    requires '/' !in p && '/' !in host && base != "" && base[0] == '/'
    ensures CutAfter(p + Tail(host, base) + id, base) == Some(Extra(host, base) + id)
  {
    hide Index, OccursAt, Tail, FirstPlace;
    FirstOccurrence(p, host, base, id);
    PlaceIsFirst(host, base);
    CutsBehind(p, Tail(host, base), id, FirstPlace(host, base) + |base|);
  }

  lemma CutsBehind(p: string, y: string, id: string, k: nat)
    requires k <= |y|
    ensures (p + y + id)[|p| + k..] == y[k..] + id
  {}

  /** A text that starts again behind h has a character of h in its last |h| characters. */
  lemma {:induction false} ComesAround(h: string, base: string, j: nat)
    requires base <= h + base && h != "" && j < |h + base| && (h + base)[j] != '/'
    ensures exists i :: |base| <= i < |h + base| && (h + base)[i] != '/'
    decreases |h + base| - j
  {
    if j < |base| {
      assert base[j] == (h + base)[j] && (h + base)[|h| + j] == base[j];
      ComesAround(h, base, |h| + j);
    }
  }

  /** A text that starts again behind slashes consists of slashes. */
  lemma {:induction false} AllSlashes(h: string, base: string, j: nat)
    requires base <= h + base && h != "" && (forall i :: 0 <= i < |h| ==> h[i] == '/') && j < |h + base|
    ensures (h + base)[j] == '/'
    decreases j
  {
    if j >= |h| {
      assert base[j - |h|] == (h + base)[j - |h|];
      AllSlashes(h, base, j - |h|);
    }
  }

  /** Nothing but slashes is left if and only if the base path is cut off in its place, or there is no host. */
  lemma ExtraIsSlashes(host: string, base: string)
    requires '/' !in host && base != "" && base[0] == '/'
    ensures Slashes(Extra(host, base)) <==> host == "" || FirstPlace(host, base) == 2 + |host|
  {
    hide Tail, FirstPlace;
    TailShape(host, base);
    PlaceIsFirst(host, base);
    PlaceIsOne(host, base);
    var y, k := Tail(host, base), FirstPlace(host, base);
    if k < 2 {
      var h := if k == 0 then "//" + host else "/" + host;
      assert y[k..] == h + base by { TailIs(host, base); }
      assert Extra(host, base) == (h + base)[|base|..];
      if host == "" {
        AllOfThem(h, base);
      } else {
        assert h[|h| - 1] == host[|host| - 1] && host[|host| - 1] in host;
        ComesAround(h, base, |h| - 1);
        var i :| |base| <= i < |h + base| && (h + base)[i] != '/';
        assert Extra(host, base)[i - |base|] == (h + base)[i];
      }
    }
  }

  lemma PlaceIsOne(host: string, base: string)
    ensures FirstPlace(host, base) == 0 || FirstPlace(host, base) == 1 || FirstPlace(host, base) == 2 + |host|
  {}

  predicate Slashes(s: string) {
    forall i :: 0 <= i < |s| ==> s[i] == '/'
  }

  lemma AllOfThem(h: string, base: string)
    requires base <= h + base && h != "" && Slashes(h)
    ensures Slashes((h + base)[|base|..])
  {
    forall j | 0 <= j < |h + base|
      ensures (h + base)[j] == '/'
    {
      AllSlashes(h, base, j);
    }
  }

  lemma TrimmedOff(extra: string, id: string)
    requires id != "" && id[0] != '/' && id[|id| - 1] != '/'
    ensures Trim(extra + id, c => c == '/') == id <==> Slashes(extra)
  {
    var drop := c => c == '/';
    var s := extra + id;
    var r := TrimLeft(s, drop);
    assert s[|extra|] == id[0] && s[|s| - 1] == id[|id| - 1];
    assert |id| <= |r|;
    assert r[|r| - 1] == s[|s| - 1];
    assert TrimRight(r, drop) == r;
    if Slashes(extra) {
      SlashesOff(extra, id);
    } else {
      var i :| 0 <= i < |extra| && extra[i] != '/';
      assert s[i] == extra[i] && !drop(s[i]);
    }
  }

  lemma {:induction false} SlashesOff(extra: string, id: string)
    requires id != "" && id[0] != '/' && Slashes(extra)
    ensures TrimLeft(extra + id, c => c == '/') == id
  {
    if extra == "" {
      assert extra + id == id;
    } else {
      assert (extra + id)[1..] == extra[1..] + id && (extra + id)[0] == '/';
      SlashesOff(extra[1..], id);
    }
  }

  /** A printed URL gives back an identifier, the one it was printed for if and only if the base path is unambiguous. */
  lemma ExtractPrinted(loc: Location, id: string)
    requires PlainLocation(loc) && PlainID(id)
    ensures ExtractID(AbsFileURL(loc, id), loc.basePath).Some?
    ensures ExtractID(AbsFileURL(loc, id), loc.basePath) == Some(id) <==> Unambiguous(loc)
  {
    hide CutAfter, NoSpace, Trim, FirstPlace, Extra, Tail, Slashes;
    var url, base := AbsFileURL(loc, id), loc.basePath;
    if loc.isAbs {
      CutAtStart(base, id);
      TrimNothing(id);
    } else if base == "" {
      CutNothing(url);
      TrimmedOff(Origin(loc), id);
      OriginIsNoSlash(loc);
      assert url == Origin(loc) + id;
    } else {
      var p := if loc.https then "https:" else "http:";
      PrintedRelative(loc, id, p);
      CutRelative(p, loc.host, base, id);
      ExtraIsSlashes(loc.host, base);
      TrimmedOff(Extra(loc.host, base), id);
    }
  }

  lemma TrimNothing(id: string)
    requires PlainID(id)
    ensures Trim(id, c => c == '/') == id
  {}

  lemma OriginIsNoSlash(loc: Location)
    ensures !Slashes(Origin(loc))
  {
    assert Origin(loc)[0] == 'h';
  }

  lemma PrintedRelative(loc: Location, id: string, p: string)
    requires !loc.isAbs && p == if loc.https then "https:" else "http:"
    ensures '/' !in p && AbsFileURL(loc, id) == p + Tail(loc.host, loc.basePath) + id
  {
    assert p + "//" == (if loc.https then "https" else "http") + "://";
    assert p + Tail(loc.host, loc.basePath) + id == (p + "//") + loc.host + loc.basePath + id;
  }

  lemma CutAtStart(base: string, id: string)
    ensures CutAfter(base + id, base) == Some(id)
  {
    hide Index, OccursAt;
    OccursByChars(base + id, base, 0);
    IndexIs(base + id, base, 0);
    assert (base + id)[|base|..] == id;
  }

  lemma CutNothing(url: string)
    ensures CutAfter(url, "") == Some(url)
  {
    CutAtStart("", url);
    assert "" + url == url;
  }

  predicate OnlyPlainIDs(ids: seq<string>) {
    forall i :: 0 <= i < |ids| ==> PlainID(ids[i])
  }

  function URLs(loc: Location, ids: seq<string>): (urls: seq<string>)
    ensures |urls| == |ids| && forall i :: 0 <= i < |ids| ==> urls[i] == AbsFileURL(loc, ids[i])
  {
    seq(|ids|, i requires 0 <= i < |ids| => AbsFileURL(loc, ids[i]))
  }

  lemma PlainURL(loc: Location, id: string)
    requires PlainLocation(loc) && PlainID(id)
    ensures var url := AbsFileURL(loc, id);
            url != "" && NoSpace(url) && url[|url| - 1] == id[|id| - 1]
  {
    assert NoSpace("http") && NoSpace("https") && NoSpace("://");
  }

  /** Spaced URLs split back into the URLs. */
  lemma {:induction false} FieldsOfSpaced(loc: Location, ids: seq<string>, rest: string)
    requires PlainLocation(loc) && OnlyPlainIDs(ids)
    ensures Fields(Spaced(loc, ids) + rest) == URLs(loc, ids) + Fields(rest)
    decreases |ids|
  {
    hide AbsFileURL, PlainID, PlainLocation, NoSpace;
    if ids == [] {
      assert Spaced(loc, ids) + rest == rest;
    } else {
      var n := |ids| - 1;
      var url := AbsFileURL(loc, ids[n]);
      PlainURL(loc, ids[n]);
      var tail := " " + rest;
      assert Spaced(loc, ids) + rest == Spaced(loc, ids[..n]) + (url + tail);
      FieldsOfSpaced(loc, ids[..n], url + tail);
      assert tail[0] == ' ' && IsSpace(' ') && tail[1..] == rest;
      FieldsFirst(url, tail);
      assert URLs(loc, ids) == URLs(loc, ids[..n]) + [url];
    }
  }

  /** Trimming takes off exactly the last space. */
  lemma PrintedEnds(loc: Location, ids: seq<string>)
    requires PlainLocation(loc) && OnlyPlainIDs(ids) && ids != []
    ensures var n := |ids| - 1;
            Printed(loc, ids) == "final;" + (Spaced(loc, ids[..n]) + AbsFileURL(loc, ids[n]))
  {
    hide AbsFileURL, PlainLocation;
    var n := |ids| - 1;
    var url := AbsFileURL(loc, ids[n]);
    PlainURL(loc, ids[n]);
    var short := "final;" + (Spaced(loc, ids[..n]) + url);
    var drop := c => c == ' ';
    assert "final;" + Spaced(loc, ids) == short + " " && (short + " ")[..|short|] == short;
    assert short[|short| - 1] == url[|url| - 1] && !IsSpace(url[|url| - 1]);
    assert Printed(loc, ids) <= short + " ";
    TrimOneSpace(short);
  }

  lemma TrimOneSpace(s: string)
    requires s != "" && s[|s| - 1] != ' '
    ensures TrimRight(s + " ", c => c == ' ') == s
  {
    assert (s + " ")[..|s|] == s;
  }

  lemma {:induction false} ExtractAllPrinted(loc: Location, ids: seq<string>)
    requires PlainLocation(loc) && OnlyPlainIDs(ids)
    ensures var (out, ok) := ExtractAll(URLs(loc, ids), loc.basePath);
            && ok && |out| == |ids|
            && forall i :: 0 <= i < |ids| ==> (out[i] == ids[i] <==> Unambiguous(loc))
  {
    hide AbsFileURL, PlainID, ExtractID, PlainLocation, Unambiguous;
    if ids != [] {
      ExtractPrinted(loc, ids[0]);
      assert URLs(loc, ids)[1..] == URLs(loc, ids[1..]);
      ExtractAllPrinted(loc, ids[1..]);
    }
  }

  /**
   The header HEAD prints for a final upload parses back into the same identifiers in the
   same order exactly when the base path is unambiguous: for every configured base path.
   */
  lemma RoundTrip(loc: Location, ids: seq<string>)
    requires PlainLocation(loc) && OnlyPlainIDs(ids) && ids != []
    ensures ParseConcat(Printed(loc, ids), loc.basePath) == Concat(false, true, ids, None)
       <==> Unambiguous(loc)
  {
    hide AbsFileURL, PlainLocation, NoSpace, Fields, ExtractAll, Spaced, Printed, Unambiguous;
    var n := |ids| - 1;
    var url := AbsFileURL(loc, ids[n]);
    PrintedEnds(loc, ids);
    PlainURL(loc, ids[n]);
    FieldsOfSpaced(loc, ids[..n], url);
    FieldsOne(url);
    assert URLs(loc, ids) == URLs(loc, ids[..n]) + [url];
    var header := Printed(loc, ids);
    assert header[6..] == Spaced(loc, ids[..n]) + url && "final;" <= header;
    assert header[0] == 'f' && "partial"[0] == 'p';
    ExtractAllPrinted(loc, ids);
    var (out, ok) := ExtractAll(URLs(loc, ids), loc.basePath);
    assert ParseConcat(header, loc.basePath) == Concat(false, true, out, None);
    if Unambiguous(loc) {
      assert out == ids;
    } else {
      assert out[0] != ids[0];
    }
  }

  lemma FieldsOne(w: string)
    requires w != "" && NoSpace(w)
    ensures Fields(w) == [w]
  {
    FieldsFirst(w, "");
    assert w + "" == w;
  }
}
