/** The request side of WsgiToAsgiInstance: reading the body, and grouping repeated headers for the environ. */
module WsgiRequest {
  import opened Contexts
  import opened Utf8

  // ---- headers -----------------------------------------------------------------------

  /** str.upper() of a latin-1 character: one of them becomes two, and two leave latin-1. */
  function UpperChar(c: char): string {
    if 'a' <= c <= 'z' || ('\U{E0}' <= c <= '\U{FE}' && c != '\U{F7}') then [c - 32 as char]
    else if c == '\U{DF}' then "SS"
    else if c == '\U{B5}' then ['\U{39C}']
    else if c == '\U{FF}' then ['\U{178}']
    else [c]
  }

  /** name.upper().replace("-", "_") of a name decoded as latin-1. */
  function Upper(s: string): string {
    if s == [] then [] else (if s[0] == '-' then "_" else UpperChar(s[0])) + Upper(s[1..])
  }

  /** The environ key of a request header. */
  function CorrectedName(name: string): string {
    if name == "content-length" then "CONTENT_LENGTH"
    else if name == "content-type" then "CONTENT_TYPE"
    else "HTTP_" + Upper(name)
  }

  predicate Special(name: string) {
    name == "content-length" || name == "content-type"
  }

  predicate AsciiName(name: string) {
    forall c :: c in name ==> c < 128 as char
  }

  /** The same ASCII character but for case, and for a dash or underscore. */
  predicate SameChar(c: char, d: char) {
    || c == d
    || ('a' <= c <= 'z' && d == c - 32 as char) || ('a' <= d <= 'z' && c == d - 32 as char)
    || (c in "-_" && d in "-_")
  }

  predicate SameHeader(a: string, b: string) {
    |a| == |b| && forall i :: 0 <= i < |a| ==> SameChar(a[i], b[i])
  }

  predicate Capital(c: char) {
    c != '-' && !('a' <= c <= 'z')
  }

  /** An upper-cased name is that name, with neither a dash nor a lower-case letter in it. */
  lemma {:induction false} UpperIsCapital(name: string)
    requires AsciiName(name)
    ensures SameHeader(Upper(name), name) && forall i :: 0 <= i < |name| ==> Capital(Upper(name)[i])
  {
    if name != [] {
      assert forall c :: c in name[1..] ==> c in name;
      assert name[0] in name;
      UpperIsCapital(name[1..]);
      var u := if name[0] == '-' then "_" else UpperChar(name[0]);
      assert |u| == 1 && Upper(name) == u + Upper(name[1..]);
      forall i | 0 <= i < |name| ensures SameChar(Upper(name)[i], name[i]) && Capital(Upper(name)[i]) {
        if i > 0 {
          assert Upper(name)[i] == Upper(name[1..])[i - 1] && name[i] == name[1..][i - 1];
        }
      }
    }
  }

  /** Two headers have the same environ key if and only if they have the same name, or the same but for case and
      dashes, and neither is one of the two that have keys of their own; any other key is HTTP_ and the name in
      capitals. */
  lemma {:induction false} SameKeyExactly(a: string, b: string)
    requires AsciiName(a) && AsciiName(b)
    ensures CorrectedName(a) == CorrectedName(b)
            <==> a == b || (!Special(a) && !Special(b) && SameHeader(a, b))
    ensures !Special(a) ==>
              && "HTTP_" <= CorrectedName(a) && SameHeader(CorrectedName(a)[5..], a)
              && forall c :: c in CorrectedName(a)[5..] ==> Capital(c)
    ensures Special(a) ==> CorrectedName(a) == if a == "content-length" then "CONTENT_LENGTH" else "CONTENT_TYPE"
  {
    UpperIsCapital(a);
    UpperIsCapital(b);
    assert !Special(a) ==> CorrectedName(a)[5..] == Upper(a);
    assert !Special(b) ==> CorrectedName(b)[5..] == Upper(b);
    assert CorrectedName(a)[0] == if Special(a) then 'C' else 'H';
    assert CorrectedName(b)[0] == if Special(b) then 'C' else 'H';
    CapitalsAgree(a, b, Upper(a), Upper(b));
  }

  lemma CapitalsAgree(a: string, b: string, u: string, v: string)
    requires SameHeader(u, a) && SameHeader(v, b)
    requires (forall i :: 0 <= i < |u| ==> Capital(u[i])) && forall i :: 0 <= i < |v| ==> Capital(v[i])
    ensures u == v <==> SameHeader(a, b)
  {
    if SameHeader(a, b) {
      forall i | 0 <= i < |u| ensures u[i] == v[i] {
        assert SameChar(u[i], a[i]) && SameChar(a[i], b[i]) && SameChar(v[i], b[i]);
      }
    }
    if u == v {
      forall i | 0 <= i < |a| ensures SameChar(a[i], b[i]) {
        assert SameChar(u[i], a[i]) && SameChar(v[i], b[i]);
      }
    }
  }

  /** The values that the first n headers have for this environ key, in order. N is what headers are named by, K the
      environ keys, V the values. */
  function Values<N, K(==), V>(headers: seq<(N, V)>, n: nat, key: K, name: N -> K): seq<V>
    requires n <= |headers|
  {
    if n == 0 then []
    else Values(headers, n - 1, key, name) + if name(headers[n - 1].0) == key then [headers[n - 1].1] else []
  }

  function Join(values: seq<string>): string {
    if values == [] then [] else if |values| == 1 then values[0] else values[0] + "," + Join(values[1..])
  }

  /** They are the values of exactly the headers with that key, in their order. */
  lemma {:induction false} ValuesOfThose<N, K, V>(headers: seq<(N, V)>, n: nat, key: K, name: N -> K)
    returns (at: seq<nat>)
    requires n <= |headers|
    ensures |at| == |Values(headers, n, key, name)|
    ensures forall j :: 0 <= j < |at| ==>
              at[j] < n && name(headers[at[j]].0) == key && Values(headers, n, key, name)[j] == headers[at[j]].1
    ensures forall j, k :: 0 <= j < k < |at| ==> at[j] < at[k]
    ensures forall i :: 0 <= i < n && name(headers[i].0) == key ==> i in at
  {
    if n == 0 {
      return [];
    }
    at := ValuesOfThose(headers, n - 1, key, name);
    if name(headers[n - 1].0) == key {
      at := at + [n - 1];
    }
  }

  /** A comma between what two lists of values make, and nothing else. */
  lemma {:induction false} JoinAppend(a: seq<string>, b: seq<string>)
    requires a != [] && b != []
    ensures Join(a + b) == Join(a) + "," + Join(b)
    ensures Join([a[0]]) == a[0]
  {
    assert (a + b)[1..] == a[1..] + b;
    if |a| > 1 {
      JoinAppend(a[1..], b);
      assert a[0] + "," + (Join(a[1..]) + "," + Join(b)) == a[0] + "," + Join(a[1..]) + "," + Join(b);
    } else {
      assert a[1..] + b == b;
    }
  }

  /** Split at every comma. */
  function CommaSplit(s: string): (r: seq<string>)
    ensures r != []
  {
    if s == [] then [[]]
    else
      var rest := CommaSplit(s[1..]);
      if s[0] == ',' then [[]] + rest else [[s[0]] + rest[0]] + rest[1..]
  }

  lemma {:induction false} SplitFirst(v: string, s: string)
    requires ',' !in v
    ensures CommaSplit(v) == [v] && CommaSplit(v + "," + s) == [v] + CommaSplit(s)
  {
    if v == [] {
      assert ([] + "," + s)[1..] == s && ([] + "," + s)[0] == ',';
    } else {
      SplitFirst(v[1..], s);
      assert [v[0]] + v[1..] == v && ([v[1..]] + CommaSplit(s))[1..] == CommaSplit(s);
      assert (v + "," + s)[1..] == v[1..] + "," + s;
    }
  }

  /** Values without commas can be read back from the environ. */
  lemma {:induction false} JoinedSplits(values: seq<string>)
    requires values != [] && forall v <- values :: ',' !in v
    ensures CommaSplit(Join(values)) == values
  {
    SplitFirst(values[0], if |values| > 1 then Join(values[1..]) else []);
    if |values| > 1 {
      JoinedSplits(values[1..]);
    }
  }

  /** Header i is one more of its kind than the limit allows; a limit of None or 0 allows everything. */
  predicate OverLimit<N, K(==), V>(headers: seq<(N, V)>, limit: Option<int>, i: nat, name: N -> K)
    requires i < |headers|
  {
    limit.Some? && limit.value != 0 && |Values(headers, i, name(headers[i].0), name)| >= limit.value
  }

  /** No header before n is over the limit. */
  ghost predicate Within<N, K, V>(headers: seq<(N, V)>, limit: Option<int>, n: nat, name: N -> K)
    requires n <= |headers|
  {
    forall i :: 0 <= i < n ==> !OverLimit(headers, limit, i, name)
  }

  lemma WithinNext<N, K, V>(headers: seq<(N, V)>, limit: Option<int>, n: nat, name: N -> K)
    requires n < |headers| && Within(headers, limit, n, name) && !OverLimit(headers, limit, n, name)
    ensures Within(headers, limit, n + 1, name)
  {
  }

  /** The limit is on how many headers of one kind there are: with a positive one no kind may have more, with a
      negative one there may be no header at all, and without one, or with 0, everything goes. */
  lemma {:induction false} WithinExactly<N, K(!new), V>(headers: seq<(N, V)>, limit: Option<int>, n: nat, name: N -> K)
    requires n <= |headers|
    ensures Within(headers, limit, n, name) <==>
      || limit.None? || limit.value == 0
      || (limit.value > 0 && NoMoreThan(headers, limit.value, n, name))
      || (limit.value < 0 && n == 0)
  {
    if n > 0 && limit.Some? && limit.value != 0 {
      WithinExactly(headers, limit, n - 1, name);
      var key := name(headers[n - 1].0);
      assert |Values(headers, n, key, name)| == |Values(headers, n - 1, key, name)| + 1;
      assert OverLimit(headers, limit, n - 1, name) <==> |Values(headers, n, key, name)| > limit.value;
      assert Within(headers, limit, n, name) <==>
          Within(headers, limit, n - 1, name) && !OverLimit(headers, limit, n - 1, name);
      if limit.value > 0 {
        NoMoreStep(headers, limit.value, n - 1, n, name);
      }
    }
  }

  /** No kind has more than v among the first n headers. */
  ghost predicate NoMoreThan<N, K(!new), V>(headers: seq<(N, V)>, v: int, n: nat, name: N -> K)
    requires n <= |headers|
  {
    forall key: K :: |Values(headers, n, key, name)| <= v
  }

  lemma NoMoreStep<N, K(!new), V>(headers: seq<(N, V)>, v: int, m: nat, n: nat, name: N -> K)
    requires n == m + 1 <= |headers|
    ensures NoMoreThan(headers, v, n, name) <==>
              NoMoreThan(headers, v, m, name) && |Values(headers, n, name(headers[m].0), name)| <= v
  {
    if NoMoreThan(headers, v, n, name) {
      forall key: K ensures |Values(headers, m, key, name)| <= v {
        assert |Values(headers, n, key, name)| <= v;
      }
    } else if NoMoreThan(headers, v, m, name) {
      var key: K :| |Values(headers, n, key, name)| > v;
      assert |Values(headers, m, key, name)| <= v;
    }
  }

  /** The lists built from the first n headers, one after the other. */
  function Groups<N, K(==), V>(headers: seq<(N, V)>, n: nat, name: N -> K): map<K, seq<V>>
    requires n <= |headers|
  {
    if n == 0 then map[]
    else
      var before, key := Groups(headers, n - 1, name), name(headers[n - 1].0);
      before[key := (if key in before then before[key] else []) + [headers[n - 1].1]]
  }

  /** For each environ key, the list built is that of the values of all headers with that key, and no list is empty. */
  lemma {:induction false} GroupsHoldValues<N, K, V>(headers: seq<(N, V)>, n: nat, name: N -> K, key: K)
    requires n <= |headers|
    ensures Values(headers, n, key, name) ==
      if key in Groups(headers, n, name) then Groups(headers, n, name)[key] else []
    ensures key in Groups(headers, n, name) ==> Groups(headers, n, name)[key] != []
  {
    if n > 0 {
      GroupsHoldValues(headers, n - 1, name, key);
    }
  }

  /** The header loop of build_environ: ValueError exactly when some header is over the limit, and otherwise the lists
      of all headers. */
  method GroupHeaders<N, K(==), V>(headers: seq<(N, V)>, limit: Option<int>, correctedName: N -> K)
    returns (r: Option<map<K, seq<V>>>)
    ensures r.None? <==> !Within(headers, limit, |headers|, correctedName)
    ensures r.Some? ==> r.value == Groups(headers, |headers|, correctedName)
  {
    var groups: map<K, seq<V>> := map[];
    var i := 0;
    while i < |headers|
      invariant 0 <= i <= |headers|
      invariant Within(headers, limit, i, correctedName)
      invariant groups == Groups(headers, i, correctedName)
    {
      var key := correctedName(headers[i].0);
      var values := if key in groups then groups[key] else [];
      GroupsHoldValues(headers, i, correctedName, key);
      if limit.Some? && limit.value != 0 && |values| >= limit.value {
        assert OverLimit(headers, limit, i, correctedName);
        return None;
      }
      WithinNext(headers, limit, i, correctedName);
      groups := groups[key := values + [headers[i].1]];
      i := i + 1;
    }
    return Some(groups);
  }

  /** The header part of build_environ. */
  method BuildHeaders(headers: seq<(string, string)>, limit: Option<int>) returns (r: Option<map<string, string>>)
    ensures r.None? <==> !Within(headers, limit, |headers|, CorrectedName)
    ensures r.Some? ==> forall key :: key in r.value <==> Values(headers, |headers|, key, CorrectedName) != []
    ensures r.Some? ==> forall key <- r.value :: r.value[key] == Join(Values(headers, |headers|, key, CorrectedName))
  {
    var groups := GroupHeaders(headers, limit, CorrectedName);
    if groups.None? {
      return None;
    }
    forall key
      ensures Values(headers, |headers|, key, CorrectedName) == if key in groups.value then groups.value[key] else []
      ensures key in groups.value ==> groups.value[key] != []
    {
      GroupsHoldValues(headers, |headers|, CorrectedName, key);
    }
    return Some(map key | key in groups.value :: Join(groups.value[key]));
  }

  // ---- the request body --------------------------------------------------------------

  datatype Request = Part(body: Bytes, more: bool) | Foreign

  /** The messages are http.request messages up to number n, which is the first without more_body. */
  predicate LastPart(messages: seq<Request>, n: nat) {
    && n < |messages| && messages[n].Part? && !messages[n].more
    && forall j :: 0 <= j < n ==> messages[j].Part? && messages[j].more
  }

  /** What the messages carry, one after the other. */
  function Carried(messages: seq<Request>): seq<Bytes> {
    seq(|messages|, i requires 0 <= i < |messages| => if messages[i].Part? then messages[i].body else [])
  }

  function Concat(chunks: seq<Bytes>): Bytes {
    if chunks == [] then [] else chunks[0] + Concat(chunks[1..])
  }

  lemma {:induction false} ConcatAppend(a: seq<Bytes>, b: seq<Bytes>)
    ensures Concat(a + b) == Concat(a) + Concat(b)
  {
    if a == [] {
      assert a + b == b;
    } else {
      assert (a + b)[1..] == a[1..] + b;
      ConcatAppend(a[1..], b);
    }
  }

  /** One part more. */
  lemma CarriedNext(messages: seq<Request>, i: nat)
    requires i < |messages| && messages[i].Part?
    ensures Concat(Carried(messages[..i + 1])) == Concat(Carried(messages[..i])) + messages[i].body
  {
    assert Carried(messages[..i + 1]) == Carried(messages[..i]) + [messages[i].body];
    ConcatAppend(Carried(messages[..i]), [messages[i].body]);
    assert [messages[i].body][1..] == [] && Concat([messages[i].body]) == messages[i].body + Concat([]);
  }

  /** The receive loop of __call__: the body is what all the messages up to the first without more_body carry. None
      exactly if a message of another type arrives before that, or the messages run out. */
  method ReadBody(messages: seq<Request>) returns (r: Option<Bytes>)
    ensures r.Some? <==> exists n :: LastPart(messages, n)
    ensures forall n :: LastPart(messages, n) ==> r == Some(Concat(Carried(messages[..n + 1])))
  {
    var body: Bytes := [];
    var i := 0;
    while i < |messages|
      invariant 0 <= i <= |messages|
      invariant forall j :: 0 <= j < i ==> messages[j].Part? && messages[j].more
      invariant body == Concat(Carried(messages[..i]))
    {
      if messages[i].Foreign? {
        return None;
      }
      CarriedNext(messages, i);
      body := body + messages[i].body;
      if !messages[i].more {
        assert LastPart(messages, i);
        return Some(body);
      }
      i := i + 1;
    }
    return None;
  }
}
