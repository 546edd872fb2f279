/**
 * The `key=value&key=value` query string that the WFS client writes into
 * every request URL, and the reading a server gives it: the part of the URL
 * before the first `?` is the endpoint, the rest is split at every `&`, and
 * each piece is split at its first `=`.  WfsHandler uses this reading to state
 * what each request URL means.
 */
module QueryString {
  import opened Common

  type Param = (string, string)

  /** `s.split(sep)`: the pieces between the occurrences of `sep`, never empty. */
  function Split(s: string, sep: char): (parts: seq<string>)
    ensures |parts| > 0
    decreases |s|
  {
    var i := IndexOf(s, sep);
    if i < 0 then [s] else [s[..i]] + Split(s[i + 1..], sep)
  }

  function EncodeParam(p: Param): string {
    p.0 + "=" + p.1
  }

  /** The query string a list of parameters is written as: `k=v` pieces joined by `&`. */
  function Encode(ps: seq<Param>): (q: string)
    requires |ps| > 0
  {
    if |ps| == 1 then EncodeParam(ps[0]) else EncodeParam(ps[0]) + "&" + Encode(ps[1..])
  }

  /** The first parameter, an `&`, then the rest of the query. */
  lemma EncodeCons(p: Param, ps: seq<Param>)
    requires |ps| > 0
    ensures Encode([p] + ps) == EncodeParam(p) + "&" + Encode(ps)
  {
    assert ([p] + ps)[1..] == ps;
  }

  /** One piece of a query string, split at its first `=`. */
  function DecodeParam(s: string): Param {
    var i := IndexOf(s, '=');
    if i < 0 then (s, "") else (s[..i], s[i + 1..])
  }

  function DecodeAll(pieces: seq<string>): (ps: seq<Param>)
    ensures |ps| == |pieces|
  {
    if |pieces| == 0 then [] else [DecodeParam(pieces[0])] + DecodeAll(pieces[1..])
  }

  /** The parameters a query string is read as. */
  function Decode(q: string): (ps: seq<Param>)
    ensures |ps| > 0
  {
    DecodeAll(Split(q, '&'))
  }

  /** The endpoint part of a URL and its query parameters. */
  function ParseUrl(url: string): (string, seq<Param>) {
    var i := IndexOf(url, '?');
    if i < 0 then (url, []) else (url[..i], Decode(url[i + 1..]))
  }

  /** A parameter that survives the round trip: no `&` anywhere, no `=` in the key. */
  predicate Plain(p: Param) {
    '&' !in p.0 && '=' !in p.0 && '&' !in p.1
  }

  lemma DecodeEncodeParam(p: Param)
    requires '=' !in p.0
    ensures DecodeParam(EncodeParam(p)) == p
  {
    IndexOfAfterPrefix(p.0, '=', p.1);
    assert (p.0 + "=" + p.1)[..|p.0|] == p.0;
    assert (p.0 + "=" + p.1)[|p.0| + 1..] == p.1;
  }

  /** Reading an encoded query gives back exactly the parameters written. */
  lemma {:induction false} DecodeEncode(ps: seq<Param>)
    requires |ps| > 0
    requires forall k :: 0 <= k < |ps| ==> Plain(ps[k])
    ensures Decode(Encode(ps)) == ps
  {
    if |ps| == 1 {
      var first := EncodeParam(ps[0]);
      PlainPiece(ps[0]);
      DecodeEncodeParam(ps[0]);
      assert Split(first, '&') == [first];
    } else {
      var tail := ps[1..];
      forall k | 0 <= k < |tail|
        ensures Plain(tail[k])
      {
        assert tail[k] == ps[k + 1];
      }
      DecodeEncode(tail);
      DecodeEncodeCons(ps[0], tail);
      assert [ps[0]] + tail == ps;
    }
  }

  /** One plain parameter in front of a query that reads back reads back too. */
  lemma DecodeEncodeCons(p: Param, tail: seq<Param>)
    requires Plain(p) && |tail| > 0
    requires Decode(Encode(tail)) == tail
    ensures Decode(Encode([p] + tail)) == [p] + tail
  {
    var first, rest := EncodeParam(p), Encode(tail);
    PlainPiece(p);
    DecodeEncodeParam(p);
    EncodeCons(p, tail);
    SplitFirstPiece(first, rest);
    DecodeAllCons(first, Split(rest, '&'));
  }

  /** An encoded plain parameter holds no `&`. */
  lemma PlainPiece(p: Param)
    requires Plain(p)
    ensures '&' !in EncodeParam(p)
  {
    assert EncodeParam(p) == p.0 + ("=" + p.1);
  }

  /** Splitting at `&` cuts off a first piece without `&`. */
  lemma SplitFirstPiece(first: string, rest: string)
    requires '&' !in first
    ensures Split(first + "&" + rest, '&') == [first] + Split(rest, '&')
  {
    IndexOfAfterPrefix(first, '&', rest);
    var q := first + "&" + rest;
    assert q[..|first|] == first;
    assert q[|first| + 1..] == rest;
  }

  lemma DecodeAllCons(piece: string, pieces: seq<string>)
    ensures DecodeAll([piece] + pieces) == [DecodeParam(piece)] + DecodeAll(pieces)
  {
    assert ([piece] + pieces)[1..] == pieces;
  }

  /** A URL built as endpoint `?` query is read back as that endpoint and those parameters. */
  lemma ParseBuiltUrl(base: string, ps: seq<Param>)
    requires '?' !in base
    requires |ps| > 0
    requires forall k :: 0 <= k < |ps| ==> Plain(ps[k])
    ensures ParseUrl(base + "?" + Encode(ps)) == (base, ps)
  {
    var url := base + "?" + Encode(ps);
    IndexOfAfterPrefix(base, '?', Encode(ps));
    assert url[..|base|] == base;
    assert url[|base| + 1..] == Encode(ps);
    DecodeEncode(ps);
  }

  /** The value of the first parameter named `key`, as a server looks it up. */
  function Lookup(ps: seq<Param>, key: string): (v: Option<string>)
    ensures v.Some? <==> exists k :: 0 <= k < |ps| && ps[k].0 == key
  {
    if |ps| == 0 then None
    else if ps[0].0 == key then Some(ps[0].1)
    else
      var v := Lookup(ps[1..], key);
      assert forall k :: 1 <= k < |ps| ==> ps[k] == ps[1..][k - 1];
      v
  }

  /** The value found for a key is the one of its first occurrence. */
  lemma {:induction false} LookupFirst(front: seq<Param>, p: Param, back: seq<Param>)
    requires forall k :: 0 <= k < |front| ==> front[k].0 != p.0
    ensures Lookup(front + [p] + back, p.0) == Some(p.1)
  {
    if |front| > 0 {
      assert (front + [p] + back)[1..] == front[1..] + [p] + back;
      LookupFirst(front[1..], p, back);
    } else {
      assert front + [p] + back == [p] + back;
    }
  }
}
