/** The part of System.Uri the extractor uses: `new Uri(text).Segments.Last()` on a
    `Resource` attribute, to read a computer ID off the end of its resource path.
    An absolute URI is `scheme://authority/path?query#fragment`; the path is split into
    segments as in section 3.3 of RFC 3986, each segment but the last keeping its
    trailing '/', which is how Uri.Segments presents them. */
module Uri {
  import opened Wrappers
  import opened Conversions

  /** Where the first character from `stop` is, or |s| when there is none. */
  function Span(s: string, stop: set<char>): (k: nat)
    ensures k <= |s|
    ensures forall i :: 0 <= i < k ==> s[i] !in stop
    ensures k < |s| ==> s[k] in stop
  {
    if s == [] || s[0] in stop then 0 else 1 + Span(s[1..], stop)
  }

  /** No character of `s` is in `stop`. */
  predicate Avoids(s: string, stop: set<char>) {
    forall i :: 0 <= i < |s| ==> s[i] !in stop
  }

  lemma {:induction false} SpanConcat(a: string, b: string, stop: set<char>)
    requires Avoids(a, stop)
    ensures Span(a + b, stop) == |a| + Span(b, stop)
  {
    if a != [] {
      assert (a + b)[0] == a[0];
      assert (a + b)[1..] == a[1..] + b;
      SpanConcat(a[1..], b, stop);
    } else {
      assert a + b == b;
    }
  }

  /** The path of an absolute hierarchical URI, "/" when it is empty; a text without a
      scheme and an authority is refused. */
  function PathOf(uri: string): (r: Result<string>)
    ensures r.Ok? ==> r.value != []
  {
    var k := Span(uri, {':', '/', '?', '#'});
    if k == 0 || k + 3 > |uri| || uri[k] != ':' || uri[k + 1] != '/' || uri[k + 2] != '/' then Err(UriFormat(uri))
    else HierarchicalPath(uri[k + 3..], uri)
  }

  /** What follows `scheme://`: a non-empty authority, then the path up to a query or
      fragment. */
  function HierarchicalPath(rest: string, uri: string): (r: Result<string>)
    ensures r.Ok? ==> r.value != []
  {
    var a := Span(rest, {'/', '?', '#'});
    if a == 0 then Err(UriFormat(uri))
    else
      var tail := rest[a..];
      var path := tail[..Span(tail, {'?', '#'})];
      Ok(if path == [] then "/" else path)
  }

  /** Uri.Segments: the path cut after every '/'. */
  function Segments(path: string): (segs: seq<string>)
    ensures path != [] ==> segs != []
  {
    if path == [] then []
    else
      var k := Span(path, {'/'});
      if k == |path| then [path] else [path[..k + 1]] + Segments(path[k + 1..])
  }

  /** A stop character inside `a` is found before anything appended to `a` is looked at. */
  lemma {:induction false} SpanPrefix(a: string, b: string, stop: set<char>)
    requires Span(a, stop) < |a|
    ensures Span(a + b, stop) == Span(a, stop)
  {
    assert (a + b)[0] == a[0];
    if a[0] !in stop {
      assert (a + b)[1..] == a[1..] + b;
      SpanPrefix(a[1..], b, stop);
    }
  }

  /** Cutting a path that ends in '/' from what follows keeps the segments of both. */
  lemma {:induction false} SegmentsConcat(a: string, b: string)
    requires a == [] || a[|a| - 1] == '/'
    ensures Segments(a + b) == Segments(a) + Segments(b)
  {
    if a == [] {
      assert a + b == b;
    } else {
      var k := Span(a, {'/'});
      SpanPrefix(a, b, {'/'});
      assert (a + b)[..k + 1] == a[..k + 1];
      assert (a + b)[k + 1..] == a[k + 1..] + b;
      SegmentsConcat(a[k + 1..], b);
    }
  }

  /** The last segment of `p/s` is `s` when `s` holds no '/'. */
  lemma LastSegment(p: string, s: string)
    requires s != [] && Avoids(s, {'/'})
    ensures var segs := Segments(p + "/" + s); segs != [] && segs[|segs| - 1] == s
  {
    SegmentsConcat(p + "/", s);
    assert p + "/" + s != [];
  }

  /** The ID in a computer's resource URI: the last path segment, read by Int32.Parse. */
  function ComputerIdOf(resource: string): (r: Result<int>)
    ensures r.Ok? ==> InInt32(r.value)
  {
    var path :- PathOf(resource);
    var segs := Segments(path);
    ParseInt32(segs[|segs| - 1])
  }

  /** The resource URI a server gives computer `id`, under the API root `https://host/api`. */
  function ComputerResource(host: string, id: int): string {
    "https://" + host + "/api/computer/" + IntToString(id)
  }

  lemma HierarchicalPathBuilt(host: string, path: string, uri: string)
    requires host != [] && Avoids(host, {'/', '?', '#'})
    requires path != [] && path[0] == '/' && Avoids(path, {'?', '#'})
    ensures HierarchicalPath(host + path, uri) == Ok(path)
  {
    SpanConcat(host, path, {'/', '?', '#'});
    assert (host + path)[|host|..] == path;
    SpanConcat(path, [], {'?', '#'});
    assert path + [] == path;
  }

  /** A scheme followed by `://` hands the rest to the authority and path reader. */
  lemma PathOfScheme(scheme: string, rest: string)
    requires scheme != [] && Avoids(scheme, {':', '/', '?', '#'})
    requires |rest| >= 3 && rest[0] == ':' && rest[1] == '/' && rest[2] == '/'
    ensures PathOf(scheme + rest) == HierarchicalPath(rest[3..], scheme + rest)
  {
    var uri := scheme + rest;
    var k := |scheme|;
    SpanConcat(scheme, rest, {':', '/', '?', '#'});
    assert uri[k] == ':' && uri[k + 1] == '/' && uri[k + 2] == '/';
    assert uri[k + 3..] == rest[3..];
  }

  /** The path of `scheme://host/path` is `/path`. */
  lemma PathOfBuilt(scheme: string, host: string, path: string)
    requires scheme != [] && Avoids(scheme, {':', '/', '?', '#'})
    requires host != [] && Avoids(host, {'/', '?', '#'})
    requires path != [] && path[0] == '/' && Avoids(path, {'?', '#'})
    ensures PathOf(scheme + "://" + host + path) == Ok(path)
  {
    var sep := "://";
    var rest := sep + (host + path);
    assert rest[0] == ':' && rest[1] == '/' && rest[2] == '/' && rest[3..] == host + path;
    assert scheme + "://" + host + path == scheme + rest;
    PathOfScheme(scheme, rest);
    HierarchicalPathBuilt(host, path, scheme + rest);
  }

  /** Printed numbers hold no URI delimiter. */
  lemma IntToStringAvoids(n: int)
    ensures Avoids(IntToString(n), {'/', '?', '#'})
    ensures Avoids(IntToString(n), {'?', '#'})
    ensures Avoids(IntToString(n), {'/'})
  {
    if n < 0 {
      assert IntToString(n) == "-" + NatToString(-n);
    }
  }

  lemma ComputerResourcePath(host: string, id: int)
    requires host != [] && Avoids(host, {'/', '?', '#'})
    ensures PathOf(ComputerResource(host, id)) == Ok("/api/computer/" + IntToString(id))
  {
    var digits := IntToString(id);
    var path := "/api/computer/" + digits;
    assert Avoids(path, {'?', '#'}) by {
      IntToStringAvoids(id);
      assert forall i :: 14 <= i < |path| ==> path[i] == digits[i - 14];
    }
    assert ComputerResource(host, id) == "https" + "://" + host + path;
    PathOfBuilt("https", host, path);
  }

  /** The last segment of a computer's resource URI is the printed ID. */
  lemma ComputerResourceLastSegment(host: string, id: int)
    requires host != [] && Avoids(host, {'/', '?', '#'})
    ensures PathOf(ComputerResource(host, id)).Ok?
    ensures var segs := Segments(PathOf(ComputerResource(host, id)).value);
      segs != [] && segs[|segs| - 1] == IntToString(id)
  {
    var digits := IntToString(id);
    ComputerResourcePath(host, id);
    IntToStringAvoids(id);
    assert "/api/computer/" == "/api/computer" + "/";
    LastSegment("/api/computer", digits);
  }

  /** Reading the ID back off a computer's resource URI gives the ID. */
  lemma ComputerIdOfResource(host: string, id: int)
    requires host != [] && Avoids(host, {'/', '?', '#'})
    requires InInt32(id)
    ensures ComputerIdOf(ComputerResource(host, id)) == Ok(id)
  {
    ComputerResourceLastSegment(host, id);
    ParseIntToString(id);
  }
}
