/** A continuation path parses back to exactly what it was rendered from. */
module ProtocolRoundTrip {
  import opened Wrappers
  import opened Protocol
  import opened Sequences

  // ----- splitting and decoding any text -----

  lemma SplitNone(s: string)
    requires '/' !in s
    ensures SplitSlashes(s) == [s]
  {
    assert s[..|s|] == s;
    IndexUnique(s, '/', |s|);
  }

  lemma SplitAt(s: string, rest: string)
    requires '/' !in s
    ensures SplitSlashes(s + ("/" + rest)) == [s] + SplitSlashes(rest)
  {
    var whole := s + ("/" + rest);
    assert whole[..|s|] == s && whole[|s|] == '/';
    IndexUnique(whole, '/', |s|);
    assert whole[|s| + 1..] == rest;
  }

  /** A text around its first slash. */
  lemma FirstSlash(s: string)
    requires '/' in s
    ensures
      var i := IndexOf(s, '/');
      i < |s| && '/' !in s[..i] && s == s[..i] + ("/" + s[i + 1..])
  {
    AroundIndex(s, '/');
    var i := IndexOf(s, '/');
    assert ['/'] + s[i + 1..] == "/" + s[i + 1..];
  }

  lemma {:induction false} SplitAppend(a: string, b: string)
    ensures SplitSlashes(a + ("/" + b)) == SplitSlashes(a) + SplitSlashes(b)
    decreases |a|
  {
    if '/' !in a {
      SplitNone(a);
      SplitAt(a, b);
    } else {
      FirstSlash(a);
      var i := IndexOf(a, '/');
      var front, rest := a[..i], a[i + 1..];
      SplitAppend(rest, b);
      Assoc(front, "/" + rest, "/" + b);
      Assoc("/", rest, "/" + b);
      SplitAt(front, rest + ("/" + b));
      SplitAt(front, rest);
      Assoc([front], SplitSlashes(rest), SplitSlashes(b));
    }
  }

  lemma {:induction false} SegmentsAppend(a: seq<string>, b: seq<string>)
    ensures Segments(a + b) == Segments(a) + Segments(b)
    decreases |a|
  {
    if a == [] {
      assert a + b == b;
    } else {
      assert (a + b)[1..] == a[1..] + b;
      SegmentsAppend(a[1..], b);
    }
  }

  /** The segments a text is read as. */
  function Pieces(s: string): seq<string> {
    Segments(SplitSlashes(s))
  }

  function AllPieces(texts: seq<string>): seq<string> {
    if texts == [] then [] else Pieces(texts[0]) + AllPieces(texts[1..])
  }

  lemma PiecesAppend(a: string, b: string)
    ensures Pieces(a + ("/" + b)) == Pieces(a) + Pieces(b)
  {
    SplitAppend(a, b);
    SegmentsAppend(SplitSlashes(a), SplitSlashes(b));
  }

  lemma PiecesEmpty()
    ensures Pieces("") == []
  {
    SplitNone("");
  }

  lemma {:induction false} PiecesJoin(first: string, texts: seq<string>)
    ensures Pieces(first + Join(texts)) == Pieces(first) + AllPieces(texts)
    decreases |texts|
  {
    if texts == [] {
      assert first + Join(texts) == first;
    } else {
      PiecesJoin(texts[0], texts[1..]);
      Assoc("/", texts[0], Join(texts[1..]));
      PiecesAppend(first, texts[0] + Join(texts[1..]));
    }
  }

  lemma {:induction false} LStripPieces(s: string)
    ensures Pieces(LStripSlashes(s)) == Pieces(s)
  {
    if s != "" && s[0] == '/' {
      LStripPieces(s[1..]);
      assert s == "" + ("/" + s[1..]);
      PiecesAppend("", s[1..]);
      PiecesEmpty();
    }
  }

  lemma {:induction false} RStripPieces(s: string)
    ensures Pieces(RStripSlashes(s)) == Pieces(s)
    decreases |s|
  {
    if s != "" && s[|s| - 1] == '/' {
      RStripPieces(s[..|s| - 1]);
      assert s == s[..|s| - 1] + ("/" + "");
      PiecesAppend(s[..|s| - 1], "");
      PiecesEmpty();
    }
  }

  lemma {:induction false} AllPiecesAppend(a: seq<string>, b: seq<string>)
    ensures AllPieces(a + b) == AllPieces(a) + AllPieces(b)
    decreases |a|
  {
    if a == [] {
      assert a + b == b;
    } else {
      assert (a + b)[1..] == a[1..] + b;
      AllPiecesAppend(a[1..], b);
    }
  }

  // ----- texts that are read as themselves -----

  predicate Plain(s: string) {
    s != "" && Unquote(s) == s
  }

  lemma SegmentsOne(s: string)
    requires s != ""
    ensures Segments([s]) == [Unquote(s)]
  {
    assert [s][1..] == [];
    assert Segments([]) == [];
  }

  lemma PiecesPlain(s: string)
    requires Plain(s) && '/' !in s
    ensures Pieces(s) == [s]
  {
    SplitNone(s);
    SegmentsOne(s);
  }

  predicate AllPlain(texts: seq<string>) {
    forall i :: 0 <= i < |texts| ==> Plain(texts[i]) && '/' !in texts[i]
  }

  lemma {:induction false} AllPiecesPlain(texts: seq<string>)
    requires AllPlain(texts)
    ensures AllPieces(texts) == texts
  {
    if texts != [] {
      PiecesPlain(texts[0]);
      AllPiecesPlain(texts[1..]);
      ConsTail(texts);
    }
  }

  lemma IdPlain(c: string)
    requires Normalized(c)
    ensures '/' !in c && '%' !in c && c != ""
  {
  }

  lemma EscapeStops(k: string, v: string)
    requires k != ""
    ensures Escape(k + "=" + v) == Escape(k)
  {
  }

  lemma {:induction false} RunStops(k: string, v: string)
    ensures EscapeRun(k + "=" + v) == EscapeRun(k)
    decreases |k|
  {
    var s := k + "=" + v;
    if k != "" {
      EscapeStops(k, v);
      if Escape(k).Some? {
        assert s[3..] == k[3..] + "=" + v;
        RunStops(k[3..], v);
      }
    }
  }

  lemma HeadStops(k: string, v: string)
    requires k != ""
    ensures Head(k + "=" + v) == Head(k) && HeadWidth(k + "=" + v) == HeadWidth(k)
  {
    EscapeStops(k, v);
    RunStops(k, v);
    assert (k + "=" + v)[0] == k[0];
  }

  lemma UnquoteEquals(v: string)
    ensures Unquote("" + "=" + v) == "=" + Unquote(v)
  {
    var s := "" + "=" + v;
    assert s[0] == '=' && s[1..] == v;
    assert Head(s) == "=";
  }

  /** An escape never reaches across an equals sign. */
  lemma {:induction false} UnquotePair(k: string, v: string)
    ensures Unquote(Pair(k, v)) == Unquote(k) + "=" + Unquote(v)
    decreases |k|
  {
    if k == "" {
      UnquoteEquals(v);
    } else {
      HeadStops(k, v);
      var n := HeadWidth(k);
      assert Pair(k, v)[n..] == Pair(k[n..], v);
      UnquotePair(k[n..], v);
      Assoc(Head(k), Unquote(k[n..]), "=" + Unquote(v));
      Assoc(Unquote(k[n..]), "=", Unquote(v));
      Assoc(Unquote(k), "=", Unquote(v));
    }
  }

  lemma PairIndex(key: string, value: string)
    requires key != "" && '=' !in key
    ensures IndexOf(Pair(key, value), '=') == |key|
    ensures HasKey(Pair(key, value)) && KeyOf(Pair(key, value)) == key && ValueOf(Pair(key, value)) == value
  {
    var s := Pair(key, value);
    assert s[..|key|] == key && s[|key|] == '=' && s[|key| + 1..] == value;
    IndexUnique(s, '=', |key|);
  }

  lemma PairPlain(key: string, value: string)
    requires key != "" && Clean(key) && Clean(value)
    ensures Plain(Pair(key, value)) && '/' !in Pair(key, value)
  {
    UnquotePair(key, value);
  }

  lemma IdSegment(c: string)
    requires Normalized(c)
    ensures
      var first := Pair("id", c);
      HasKey(first) && KeyOf(first) == "id" && ValueOf(first) == c && Plain(first) && '/' !in first
  {
    IdPlain(c);
    UnquotePlain(c);
    WordPair("id", c);
    PairIndex("id", c);
  }

  // ----- what any path is parsed as -----

  function PathOf(segments: seq<string>): string {
    if segments == [] then "/" else Join(segments)
  }

  lemma ParseSegments(filename: string, first: string, m: seq<string>, c: string)
    requires Segments(SplitSlashes(StripSlashes(filename))) == [first] + m
    requires HasKey(first) && KeyOf(first) == "id" && ValueOf(first) == c && NormalizeClientId(c) == Ok(c)
    ensures ParseRequestPath(filename) == Ok(Parsed(filename, Some(c), PathOf(m), m, Values(m)))
  {
    assert ([first] + m)[0] == first && ([first] + m)[1..] == m;
  }

  /** A session path of arbitrary texts is read as the client and the pieces of those texts. */
  lemma ParseTexts(first: string, c: string, texts: seq<string>)
    requires Normalized(c)
    requires HasKey(first) && KeyOf(first) == "id" && ValueOf(first) == c && Plain(first) && '/' !in first
    ensures
      var path, pieces := first + Join(texts), AllPieces(texts);
      ParseRequestPath(path) == Ok(Parsed(path, Some(c), PathOf(pieces), pieces, Values(pieces)))
  {
    var path := first + Join(texts);
    LStripPieces(path);
    RStripPieces(LStripSlashes(path));
    PiecesJoin(first, texts);
    PiecesPlain(first);
    NormalizedStays(c);
    ParseSegments(path, first, AllPieces(texts), c);
  }

  /**
   The rendered continuation path, whatever the token, the keys and the device's
   values are: the values' slashes split them and their escapes are decoded.
   */
  lemma ParseAnyRendered(t: Template, values: string -> string)
    requires Normalized(t.clientId)
    ensures
      var path, pieces := Render(t, values), AllPieces(MessageOf(t, values));
      ParseRequestPath(path) == Ok(Parsed(path, Some(t.clientId), PathOf(pieces), pieces, Values(pieces)))
  {
    IdSegment(t.clientId);
    ParseTexts(Pair("id", t.clientId), t.clientId, MessageOf(t, values));
  }

  /** A session path of clean segments comes apart into the client and those segments. */
  lemma ParseMessage(c: string, m: seq<string>)
    requires Normalized(c) && m != [] && AllPlain(m)
    ensures
      var path := Pair("id", c) + Join(m);
      ParseRequestPath(path) == Ok(Parsed(path, Some(c), Join(m), m, Values(m)))
  {
    IdSegment(c);
    AllPiecesPlain(m);
    ParseTexts(Pair("id", c), c, m);
  }

  /** What the server can hand out and expect back. */
  predicate Renderable(t: Template, values: string -> string) {
    && Normalized(t.clientId) && Clean(t.token) && (t.recv.Some? ==> Clean(t.recv.value))
    && forall i :: 0 <= i < |t.keys| ==> CleanKey(t.keys[i]) && Clean(values(t.keys[i]))
  }

  /** A key that percent-decoding leaves alone. */
  predicate CleanKey(key: string) {
    ReturnKey(key) && Unquote(key) == key
  }

  lemma WordClean(word: string)
    requires '%' !in word && '/' !in word
    ensures Clean(word)
  {
    UnquotePlain(word);
  }

  lemma WordPair(word: string, value: string)
    requires word != "" && '%' !in word && '/' !in word && Clean(value)
    ensures Plain(Pair(word, value)) && '/' !in Pair(word, value)
  {
    UnquotePlain(word);
    PairPlain(word, value);
  }

  lemma MessagePlain(t: Template, values: string -> string)
    requires Renderable(t, values)
    ensures var m := MessageOf(t, values); m != [] && AllPlain(m)
  {
    WordPair("token", t.token);
    if t.recv.Some? {
      WordPair("recv", t.recv.value);
    }
    KeyPairsPlain(t.keys, values);
  }

  lemma KeyPairsPlain(keys: seq<string>, values: string -> string)
    requires forall i :: 0 <= i < |keys| ==> CleanKey(keys[i]) && Clean(values(keys[i]))
    ensures AllPlain(KeyPairs(keys, values))
  {
    var m := KeyPairs(keys, values);
    forall i | 0 <= i < |m| ensures Plain(m[i]) && '/' !in m[i] {
      assert Clean(keys[i]);
      PairPlain(keys[i], values(keys[i]));
    }
  }

  /** Parsing a rendered continuation path gives back the client and every segment. */
  lemma ParseRendered(t: Template, values: string -> string)
    requires Renderable(t, values)
    ensures
      var m := MessageOf(t, values);
      var path := Render(t, values);
      ParseRequestPath(path) == Ok(Parsed(path, Some(t.clientId), Join(m), m, Values(m)))
  {
    MessagePlain(t, values);
    ParseMessage(t.clientId, MessageOf(t, values));
  }

  // ----- and the dictionary holds exactly the pairs -----

  lemma ValuesSnoc(segs: seq<string>, key: string, value: string)
    requires key != "" && '=' !in key
    ensures Values(segs + [Pair(key, value)]) == Values(segs)[key := value]
  {
    PairIndex(key, value);
    assert (segs + [Pair(key, value)])[..|segs|] == segs;
  }

  /** The key pairs laid over what was read before them. */
  function Overlay(before: map<string, string>, keys: seq<string>, values: string -> string): map<string, string> {
    if keys == [] then before else
      Overlay(before, keys[..|keys| - 1], values)[keys[|keys| - 1] := values(keys[|keys| - 1])]
  }

  lemma {:induction false} ValuesOfPairs(segs: seq<string>, keys: seq<string>, values: string -> string)
    requires forall i :: 0 <= i < |keys| ==> ReturnKey(keys[i])
    ensures Values(segs + KeyPairs(keys, values)) == Overlay(Values(segs), keys, values)
    decreases |keys|
  {
    if keys == [] {
      assert segs + KeyPairs(keys, values) == segs;
    } else {
      var front, k := keys[..|keys| - 1], keys[|keys| - 1];
      ValuesOfPairs(segs, front, values);
      assert '=' !in k;
      ValuesSnoc(segs + KeyPairs(front, values), k, values(k));
      assert segs + KeyPairs(keys, values) == segs + KeyPairs(front, values) + [Pair(k, values(k))];
    }
  }

  lemma {:induction false} OverlayValue(before: map<string, string>, keys: seq<string>, values: string -> string,
                                        k: string)
    ensures k in keys ==> k in Overlay(before, keys, values) && Overlay(before, keys, values)[k] == values(k)
    ensures k !in keys ==> (k in Overlay(before, keys, values) <==> k in before)
    ensures k !in keys && k in before ==> Overlay(before, keys, values)[k] == before[k]
    decreases |keys|
  {
    if keys != [] {
      OverlayValue(before, keys[..|keys| - 1], values, k);
      assert keys == keys[..|keys| - 1] + [keys[|keys| - 1]];
    }
  }

  /** The pairs in front of the keys. */
  function Fixed(t: Template): map<string, string> {
    if t.recv.Some? then map["token" := t.token, "recv" := t.recv.value] else map["token" := t.token]
  }

  lemma MessageValues(t: Template, values: string -> string)
    requires Renderable(t, values)
    ensures Values(MessageOf(t, values)) == Overlay(Fixed(t), t.keys, values)
  {
    var head := [Pair("token", t.token)] + RecvPair(t.recv);
    assert [] + [Pair("token", t.token)] == [Pair("token", t.token)];
    ValuesSnoc([], "token", t.token);
    if t.recv.Some? {
      ValuesSnoc([Pair("token", t.token)], "recv", t.recv.value);
    } else {
      assert head == [Pair("token", t.token)];
    }
    Assoc([Pair("token", t.token)], RecvPair(t.recv), KeyPairs(t.keys, values));
    ValuesOfPairs(head, t.keys, values);
  }

  /**
   The dictionary holds the token, the status if there is one, and every reported
   value, and nothing else. A key that is itself called `token` or `recv` replaces
   the server's own value by the device's.
   */
  ghost predicate CarriedBy(t: Template, values: string -> string, read: map<string, string>) {
    && (forall k :: k in read <==> k == "token" || (k == "recv" && t.recv.Some?) || k in t.keys)
    && (forall k :: k in t.keys ==> k in read && read[k] == values(k))
    && "token" in read && (t.recv.Some? ==> "recv" in read)
    && (read["token"] == t.token <==> "token" !in t.keys || values("token") == t.token)
    && (t.recv.Some? ==> (read["recv"] == t.recv.value <==> "recv" !in t.keys || values("recv") == t.recv.value))
  }

  /** Parsing the rendered path gives back the client, the token, the status and every value, as they were sent. */
  lemma ContinuationRoundTrip(t: Template, values: string -> string)
    requires Renderable(t, values)
    ensures
      var r := ParseRequestPath(Render(t, values));
      r.Ok? && r.value.clientId == Some(t.clientId) && CarriedBy(t, values, r.value.values)
  {
    ParseRendered(t, values);
    MessageCarries(t, values);
  }

  lemma MessageCarries(t: Template, values: string -> string)
    requires Renderable(t, values)
    ensures CarriedBy(t, values, Values(MessageOf(t, values)))
  {
    MessageValues(t, values);
    OverlayValues(Fixed(t), t.keys, values);
    FixedHas(t);
    LaidOver(t, values, Fixed(t), Values(MessageOf(t, values)));
  }

  lemma FixedHas(t: Template)
    ensures forall k :: k in Fixed(t) <==> k == "token" || (k == "recv" && t.recv.Some?)
    ensures Fixed(t)["token"] == t.token && (t.recv.Some? ==> Fixed(t)["recv"] == t.recv.value)
  {
  }

  lemma LaidOver(t: Template, values: string -> string, fixed: map<string, string>, read: map<string, string>)
    requires forall k :: k in fixed <==> k == "token" || (k == "recv" && t.recv.Some?)
    requires fixed["token"] == t.token && (t.recv.Some? ==> fixed["recv"] == t.recv.value)
    requires forall k :: k in read <==> k in t.keys || k in fixed
    requires forall k :: k in read ==> read[k] == if k in t.keys then values(k) else fixed[k]
    ensures CarriedBy(t, values, read)
  {
  }

  lemma OverlayValues(before: map<string, string>, keys: seq<string>, values: string -> string)
    ensures
      var after := Overlay(before, keys, values);
      && (forall k :: k in after <==> k in keys || k in before)
      && (forall k :: k in after ==> after[k] == if k in keys then values(k) else before[k])
  {
    forall k
      ensures k in Overlay(before, keys, values) <==> k in keys || k in before
      ensures k in Overlay(before, keys, values) ==>
        Overlay(before, keys, values)[k] == if k in keys then values(k) else before[k]
    {
      OverlayValue(before, keys, values, k);
    }
  }

  // ----- which segment decides -----

  predicate Sets(segment: string, k: string) {
    HasKey(segment) && KeyOf(segment) == k
  }

  /** Segment `i` is the last one with the key `k`. */
  ghost predicate LastSets(segs: seq<string>, i: nat, k: string) {
    i < |segs| && Sets(segs[i], k) && forall j :: i < j < |segs| ==> !Sets(segs[j], k)
  }

  /** The dictionary has a key's value from the last segment with that key. */
  lemma {:induction false} ReadIff(segs: seq<string>, k: string, v: string)
    ensures k in Values(segs) && Values(segs)[k] == v <==>
      exists i: nat :: LastSets(segs, i, k) && ValueOf(segs[i]) == v
    decreases |segs|
  {
    if segs != [] {
      var n := |segs| - 1;
      var front := segs[..n];
      ReadIff(front, k, v);
      if Sets(segs[n], k) {
        assert LastSets(segs, n, k);
      } else {
        forall i: nat
          ensures LastSets(segs, i, k) <==> LastSets(front, i, k)
        {
          LastSetsFront(segs, i, k);
        }
      }
    }
  }

  lemma LastSetsFront(segs: seq<string>, i: nat, k: string)
    requires segs != [] && !Sets(segs[|segs| - 1], k)
    ensures LastSets(segs, i, k) <==> LastSets(segs[..|segs| - 1], i, k)
  {
    var front := segs[..|segs| - 1];
    if LastSets(front, i, k) {
      forall j | i < j < |segs| ensures !Sets(segs[j], k) {
        assert j < |front| ==> segs[j] == front[j];
      }
    }
    if LastSets(segs, i, k) {
      forall j | i < j < |front| ensures !Sets(front[j], k) {
        assert segs[j] == front[j];
      }
    }
  }

  lemma {:induction false} ValuesAppend(a: seq<string>, b: seq<string>)
    ensures Values(a + b) == Values(a) + Values(b)
    decreases |b|
  {
    if b == [] {
      assert a + b == a;
    } else {
      var n := |b| - 1;
      assert (a + b)[..|a + b| - 1] == a + b[..n] && (a + b)[|a + b| - 1] == b[n];
      ValuesAppend(a, b[..n]);
    }
  }

  lemma {:induction false} ValueFrom(segs: seq<string>, k: string) returns (x: string)
    requires k in Values(segs)
    ensures x in segs && Sets(x, k) && Values(segs)[k] == ValueOf(x)
    decreases |segs|
  {
    var n := |segs| - 1;
    if Sets(segs[n], k) {
      x := segs[n];
    } else {
      x := ValueFrom(segs[..n], k);
    }
  }

  lemma {:induction false} KeyRead(segs: seq<string>, x: string, k: string)
    requires x in segs && Sets(x, k)
    ensures k in Values(segs)
    decreases |segs|
  {
    var n := |segs| - 1;
    if segs[n] != x {
      FrontLast(segs);
      KeyRead(segs[..n], x, k);
    }
  }

  // ----- exactly when the reported values arrive -----

  /** The part of a value in front of its first slash. */
  function Front(v: string): string {
    v[..IndexOf(v, '/')]
  }

  lemma {:induction false} SegmentsShorter(raw: seq<string>, n: nat, x: string)
    requires forall i :: 0 <= i < |raw| ==> |raw[i]| <= n
    requires x in Segments(raw)
    ensures |x| <= n
    decreases |raw|
  {
    if raw[0] == "" || x != Unquote(raw[0]) {
      SegmentsShorter(raw[1..], n, x);
    }
  }

  lemma {:induction false} SplitShorter(s: string, i: nat)
    requires i < |SplitSlashes(s)|
    ensures |SplitSlashes(s)[i]| <= |s|
    decreases |s|
  {
    var n := IndexOf(s, '/');
    if n < |s| && i > 0 {
      SplitShorter(s[n + 1..], i - 1);
    }
  }

  lemma PieceShorter(s: string, x: string)
    requires x in Pieces(s)
    ensures |x| <= |s|
  {
    forall i | 0 <= i < |SplitSlashes(s)| ensures |SplitSlashes(s)[i]| <= |s| {
      SplitShorter(s, i);
    }
    SegmentsShorter(SplitSlashes(s), |s|, x);
  }

  /** The piece a pair is read as first. */
  function Own(key: string, v: string): string {
    Pair(key, Unquote(Front(v)))
  }

  /** What a value with a slash leaves behind the first one. */
  function Rest(v: string): string
    requires '/' in v
  {
    FoundInside(v, '/');
    v[IndexOf(v, '/') + 1..]
  }

  lemma PairSlash(key: string, v: string)
    requires '/' in v
    ensures Pieces(Pair(key, v)) == Pieces(Pair(key, Front(v))) + Pieces(Rest(v))
  {
    FirstSlash(v);
    Assoc(key + "=", Front(v), "/" + Rest(v));
    PiecesAppend(Pair(key, Front(v)), Rest(v));
  }

  lemma FrontOfWhole(v: string)
    requires '/' !in v
    ensures Front(v) == v
  {
    assert v[..|v|] == v;
    IndexUnique(v, '/', |v|);
  }

  lemma PairPieces(key: string, v: string)
    requires CleanKey(key)
    ensures Pieces(Pair(key, v)) == [Own(key, v)] + (if '/' in v then Pieces(Rest(v)) else [])
    ensures Sets(Own(key, v), key) && ValueOf(Own(key, v)) == Unquote(Front(v))
  {
    FirstPiece(key, Front(v));
    PairIndex(key, Unquote(Front(v)));
    if '/' in v {
      PairSlash(key, v);
    } else {
      FrontOfWhole(v);
    }
  }

  lemma PairNoSlash(key: string, u: string)
    requires '/' !in key && '/' !in u
    ensures '/' !in Pair(key, u) && Pair(key, u) != ""
  {
  }

  lemma FirstPiece(key: string, u: string)
    requires CleanKey(key) && '/' !in u
    ensures Pieces(Pair(key, u)) == [Pair(key, Unquote(u))]
  {
    PairNoSlash(key, u);
    SplitNone(Pair(key, u));
    SegmentsOne(Pair(key, u));
    UnquotePair(key, u);
  }

  /** A piece of a pair is the pair itself up to the first slash, or shorter than the value. */
  lemma PieceOfPair(key: string, v: string, x: string)
    requires CleanKey(key) && x in Pieces(Pair(key, v))
    ensures x == Own(key, v) || ('/' in v && |x| < |v|)
  {
    PairPieces(key, v);
    if '/' in v {
      FirstOrRest(Own(key, v), Pieces(Rest(v)), x);
      if x in Pieces(Rest(v)) {
        PieceShorter(Rest(v), x);
      }
    } else {
      FirstOrRest(Own(key, v), [], x);
    }
  }

  lemma FirstOrRest(first: string, rest: seq<string>, x: string)
    requires x in [first] + rest
    ensures x == first || x in rest
  {
  }

  predicate CleanKeys(keys: seq<string>) {
    forall i :: 0 <= i < |keys| ==> CleanKey(keys[i])
  }

  lemma {:induction false} PieceOfSome(keys: seq<string>, values: string -> string, x: string) returns (i: nat)
    requires x in AllPieces(KeyPairs(keys, values))
    ensures i < |keys| && x in Pieces(Pair(keys[i], values(keys[i])))
    decreases |keys|
  {
    var pairs := KeyPairs(keys, values);
    if x in Pieces(pairs[0]) {
      i := 0;
    } else {
      assert pairs[1..] == KeyPairs(keys[1..], values);
      i := PieceOfSome(keys[1..], values, x);
      i := i + 1;
    }
  }

  lemma PiecesOf(texts: seq<string>, x: string)
    requires texts != []
    ensures x in AllPieces(texts) <==> x in Pieces(texts[0]) || x in AllPieces(texts[1..])
  {
  }

  lemma OwnFirst(key: string, v: string)
    requires CleanKey(key)
    ensures Own(key, v) in Pieces(Pair(key, v)) && Sets(Own(key, v), key)
  {
    PairPieces(key, v);
  }

  lemma {:induction false} OwnPiece(keys: seq<string>, values: string -> string, i: nat)
    requires CleanKeys(keys) && i < |keys|
    ensures Own(keys[i], values(keys[i])) in AllPieces(KeyPairs(keys, values))
    decreases |keys|
  {
    var pairs := KeyPairs(keys, values);
    assert pairs[0] == Pair(keys[0], values(keys[0])) && pairs[1..] == KeyPairs(keys[1..], values);
    PiecesOf(pairs, Own(keys[i], values(keys[i])));
    if i == 0 {
      OwnFirst(keys[0], values(keys[0]));
    } else {
      OwnPiece(keys[1..], values, i - 1);
    }
  }

  ghost predicate Arrive(keys: seq<string>, values: string -> string, read: map<string, string>) {
    forall i :: 0 <= i < |keys| ==> keys[i] in read && read[keys[i]] == values(keys[i])
  }

  predicate AllClean(keys: seq<string>, values: string -> string) {
    forall i :: 0 <= i < |keys| ==> Clean(values(keys[i]))
  }

  /** The value read for a key whose value has a slash comes from a longer value with a slash. */
  lemma SlashNeedsLonger(keys: seq<string>, values: string -> string, i: nat) returns (j: nat)
    requires CleanKeys(keys) && i < |keys| && '/' in values(keys[i])
    requires Arrive(keys, values, Values(AllPieces(KeyPairs(keys, values))))
    ensures j < |keys| && '/' in values(keys[j]) && |values(keys[j])| > |values(keys[i])|
  {
    var k, v := keys[i], values(keys[i]);
    var x := ValueFrom(AllPieces(KeyPairs(keys, values)), k);
    j := PieceOfSome(keys, values, x);
    PieceOfPair(keys[j], values(keys[j]), x);
    FirstSlash(v);
    PairIndex(keys[j], Unquote(Front(values(keys[j]))));
  }

  lemma Longest(keys: seq<string>, values: string -> string, start: nat) returns (i: nat)
    requires start < |keys| && '/' in values(keys[start])
    ensures i < |keys| && '/' in values(keys[i])
    ensures forall j :: 0 <= j < |keys| && '/' in values(keys[j]) ==> |values(keys[j])| <= |values(keys[i])|
  {
    i := start;
    for n := 0 to |keys|
      invariant i < |keys| && '/' in values(keys[i])
      invariant forall j :: 0 <= j < n && '/' in values(keys[j]) ==> |values(keys[j])| <= |values(keys[i])|
    {
      if '/' in values(keys[n]) && |values(keys[n])| > |values(keys[i])| {
        i := n;
      }
    }
  }

  lemma ArriveNoSlash(keys: seq<string>, values: string -> string)
    requires CleanKeys(keys) && Arrive(keys, values, Values(AllPieces(KeyPairs(keys, values))))
    ensures forall i :: 0 <= i < |keys| ==> '/' !in values(keys[i])
  {
    if start: nat :| start < |keys| && '/' in values(keys[start]) {
      var i := Longest(keys, values, start);
      var j := SlashNeedsLonger(keys, values, i);
    }
  }

  lemma CleanArrive(keys: seq<string>, values: string -> string)
    requires CleanKeys(keys) && AllClean(keys, values)
    ensures Arrive(keys, values, Values(AllPieces(KeyPairs(keys, values))))
  {
    var pairs := KeyPairs(keys, values);
    KeyPairsPlain(keys, values);
    AllPiecesPlain(pairs);
    assert [] + pairs == pairs;
    ValuesOfPairs([], keys, values);
    OverlayValues(map[], keys, values);
  }

  lemma ArriveClean(keys: seq<string>, values: string -> string)
    requires CleanKeys(keys) && Arrive(keys, values, Values(AllPieces(KeyPairs(keys, values))))
    ensures AllClean(keys, values)
  {
    ArriveNoSlash(keys, values);
    forall i | 0 <= i < |keys| ensures Clean(values(keys[i])) {
      ArriveDecoded(keys, values, i);
    }
  }

  /** All reported values are read back as they are exactly when none has a slash or changes under decoding. */
  lemma PairsArriveIff(keys: seq<string>, values: string -> string)
    requires CleanKeys(keys)
    ensures Arrive(keys, values, Values(AllPieces(KeyPairs(keys, values)))) <==> AllClean(keys, values)
  {
    if AllClean(keys, values) {
      CleanArrive(keys, values);
    }
    if Arrive(keys, values, Values(AllPieces(KeyPairs(keys, values)))) {
      ArriveClean(keys, values);
    }
  }

  lemma ArriveDecoded(keys: seq<string>, values: string -> string, i: nat)
    requires CleanKeys(keys) && i < |keys| && Arrive(keys, values, Values(AllPieces(KeyPairs(keys, values))))
    requires forall j :: 0 <= j < |keys| ==> '/' !in values(keys[j])
    ensures Unquote(values(keys[i])) == values(keys[i])
  {
    var x := ValueFrom(AllPieces(KeyPairs(keys, values)), keys[i]);
    var j := PieceOfSome(keys, values, x);
    var v := values(keys[j]);
    PieceOfPair(keys[j], v, x);
    PairIndex(keys[j], Unquote(Front(v)));
    FrontOfWhole(v);
  }

  /**
   Exactly when everything reported arrives: no value has a slash and percent-
   decoding leaves every value alone. The token and the status may be anything.
   */
  lemma ValuesArriveIff(t: Template, values: string -> string)
    requires Normalized(t.clientId) && CleanKeys(t.keys)
    ensures
      var r := ParseRequestPath(Render(t, values));
      r.Ok? && (Arrive(t.keys, values, r.value.values) <==> AllClean(t.keys, values))
  {
    ParseAnyRendered(t, values);
    KeysDecide(t, values);
    PairsArriveIff(t.keys, values);
  }

  /** What stands in front of the keys does not matter for them. */
  lemma KeysDecide(t: Template, values: string -> string)
    requires CleanKeys(t.keys)
    ensures
      var read, own := Values(AllPieces(MessageOf(t, values))), Values(AllPieces(KeyPairs(t.keys, values)));
      forall i :: 0 <= i < |t.keys| ==> t.keys[i] in own && t.keys[i] in read && read[t.keys[i]] == own[t.keys[i]]
  {
    var head, pairs := [Pair("token", t.token)] + RecvPair(t.recv), KeyPairs(t.keys, values);
    Assoc([Pair("token", t.token)], RecvPair(t.recv), pairs);
    AllPiecesAppend(head, pairs);
    ValuesAppend(AllPieces(head), AllPieces(pairs));
    forall i | 0 <= i < |t.keys| ensures t.keys[i] in Values(AllPieces(pairs)) {
      OwnPiece(t.keys, values, i);
      OwnFirst(t.keys[i], values(t.keys[i]));
      KeyRead(AllPieces(pairs), Own(t.keys[i], values(t.keys[i])), t.keys[i]);
    }
  }

  /** A slash cuts a value off: its key is read with the part in front of it, the rest as segments of its own. */
  lemma SlashCuts(key: string, a: string, b: string)
    requires CleanKey(key) && Clean(a)
    ensures Pieces(Pair(key, a + ("/" + b))) == [Pair(key, a)] + Pieces(b)
  {
    var v := a + ("/" + b);
    assert v[..|a|] == a && v[|a|] == '/' && v[|a| + 1..] == b;
    IndexUnique(v, '/', |a|);
    PairPieces(key, v);
  }
}
