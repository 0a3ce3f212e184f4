/** The request fingerprint of internal/approval/hash.go: the byte stream that is
fed to SHA-256, and what it identifies. */
module Fingerprint {
  import opened Text

  datatype Request = Request(
    id: string,
    operation: string,
    caseID: string,
    reason: string,
    requester: string,
    clientID: string,
    artifact: string,
    parameters: map<string, string>,
    profile: string,
    huntID: string,
    flowID: string,
    uploadName: string,
    clientIDs: seq<string>,
    labelName: string,
    targetAll: bool,
    createdAt: int)  // 0 is Go's zero time

  /** Two requests ask for the same thing: everything but id, reason, requester and
      creation time agrees, with client ids compared as a multiset. */
  ghost predicate SameTarget(a: Request, b: Request) {
    && a.operation == b.operation && a.caseID == b.caseID && a.clientID == b.clientID
    && a.artifact == b.artifact && a.profile == b.profile && a.huntID == b.huntID
    && a.flowID == b.flowID && a.uploadName == b.uploadName && a.labelName == b.labelName
    && a.targetAll == b.targetAll && a.parameters == b.parameters
    && multiset(a.clientIDs) == multiset(b.clientIDs)
  }

  // ----- the byte order used by sort.Strings

  predicate Leq(a: string, b: string) {
    a == "" || (b != "" && (a[0] < b[0] || (a[0] == b[0] && Leq(a[1..], b[1..]))))
  }

  lemma {:induction false} LeqTotal(a: string, b: string)
    ensures Leq(a, b) || Leq(b, a)
  {
    if a != "" && b != "" { LeqTotal(a[1..], b[1..]); }
  }

  lemma {:induction false} LeqAntisymmetric(a: string, b: string)
    requires Leq(a, b) && Leq(b, a)
    ensures a == b
  {
    if a != "" && b != "" {
      LeqAntisymmetric(a[1..], b[1..]);
      assert a == [a[0]] + a[1..] && b == [b[0]] + b[1..];
    }
  }

  lemma {:induction false} LeqTransitive(a: string, b: string, c: string)
    requires Leq(a, b) && Leq(b, c)
    ensures Leq(a, c)
  {
    if a != "" && b != "" && c != "" && a[0] == b[0] && b[0] == c[0] {
      LeqTransitive(a[1..], b[1..], c[1..]);
    }
  }

  /** `a` and `b` first differ at `k`, and there `a` is smaller. */
  ghost predicate SmallerAt(a: string, b: string, k: nat) {
    k < |a| && k < |b| && a[..k] == b[..k] && a[k] < b[k]
  }

  lemma SmallerShifts(a: string, b: string, k: nat)
    requires a != "" && b != "" && a[0] == b[0]
    ensures SmallerAt(a, b, k + 1) <==> SmallerAt(a[1..], b[1..], k)
  {
    if k + 1 < |a| && k + 1 < |b| {
      assert a[..k + 1] == [a[0]] + a[1..][..k] && b[..k + 1] == [b[0]] + b[1..][..k];
      assert a[1..][..k] == a[..k + 1][1..] && b[1..][..k] == b[..k + 1][1..];
    }
  }

  lemma SmallerFirst(a: string, b: string, k: nat)
    requires SmallerAt(a, b, k)
    ensures k == 0 <==> a[0] != b[0]
  {
    if k > 0 { assert a[..k][0] == a[0] && b[..k][0] == b[0]; }
  }

  lemma PrefixShifts(a: string, b: string)
    requires a != "" && b != "" && a[0] == b[0]
    ensures a <= b <==> a[1..] <= b[1..]
  {
    assert a == [a[0]] + a[1..] && b == [b[0]] + b[1..];
  }

  /** The byte order: a prefix comes first, and otherwise the first difference decides. */
  lemma {:induction false} LeqIsByteOrder(a: string, b: string)
    ensures Leq(a, b) <==> a <= b || exists k: nat :: SmallerAt(a, b, k)
    decreases |a|
  {
    if k: nat :| SmallerAt(a, b, k) { SmallerFirst(a, b, k); }
    if a != "" && b != "" {
      if a[0] == b[0] {
        LeqIsByteOrder(a[1..], b[1..]);
        PrefixShifts(a, b);
        forall k: nat ensures SmallerAt(a, b, k + 1) <==> SmallerAt(a[1..], b[1..], k) { SmallerShifts(a, b, k); }
        if k: nat :| SmallerAt(a, b, k) {
          SmallerFirst(a, b, k);
          assert SmallerAt(a[1..], b[1..], k - 1);
        }
        if k: nat :| SmallerAt(a[1..], b[1..], k) { assert SmallerAt(a, b, k + 1); }
      } else {
        DifferentFirst(a, b);
      }
    }
  }

  lemma DifferentFirst(a: string, b: string)
    requires a != "" && b != "" && a[0] != b[0]
    ensures (a <= b || exists k: nat :: SmallerAt(a, b, k)) <==> a[0] < b[0]
  {
    if k: nat :| SmallerAt(a, b, k) { SmallerFirst(a, b, k); }
    if a[0] < b[0] { assert SmallerAt(a, b, 0); }
  }

  ghost predicate Ordered(s: seq<string>) {
    forall i, j :: 0 <= i < j < |s| ==> Leq(s[i], s[j])
  }

  function Insert(x: string, s: seq<string>): (r: seq<string>) {
    if s == [] then [x] else if Leq(x, s[0]) then [x] + s else [s[0]] + Insert(x, s[1..])
  }

  lemma {:induction false} InsertAdds(x: string, s: seq<string>)
    ensures multiset(Insert(x, s)) == multiset(s) + multiset{x}
  {
    if s != [] {
      assert s == [s[0]] + s[1..];
      InsertAdds(x, s[1..]);
    }
  }

  lemma OrderedCons(h: string, t: seq<string>)
    requires Ordered(t) && forall y | y in t :: Leq(h, y)
    ensures Ordered([h] + t)
  {
  }

  lemma {:induction false} InsertOrders(x: string, s: seq<string>)
    requires Ordered(s)
    ensures Ordered(Insert(x, s))
  {
    if s != [] {
      if Leq(x, s[0]) {
        forall y | y in s ensures Leq(x, y) {
          var j :| 0 <= j < |s| && s[j] == y;
          if j > 0 { LeqTransitive(x, s[0], s[j]); }
        }
        OrderedCons(x, s);
      } else {
        var t := Insert(x, s[1..]);
        InsertOrders(x, s[1..]);
        InsertAdds(x, s[1..]);
        LeqTotal(x, s[0]);
        forall y | y in t ensures Leq(s[0], y) {
          assert y in multiset(t);
          assert y == x || y in s[1..];
        }
        OrderedCons(s[0], t);
      }
    }
  }

  /** `sort.Strings`. */
  function SortStrings(s: seq<string>): (r: seq<string>)
    ensures Ordered(r) && multiset(r) == multiset(s)
  {
    if s == [] then []
    else
      var t := SortStrings(s[1..]);
      assert s == [s[0]] + s[1..];
      InsertAdds(s[0], t);
      InsertOrders(s[0], t);
      Insert(s[0], t)
  }

  lemma HeadLeast(s: seq<string>, x: string)
    requires Ordered(s) && x in multiset(s)
    ensures s != [] && Leq(s[0], x)
  {
    var i :| 0 <= i < |s| && s[i] == x;
    LeqTotal(x, x);
  }

  lemma DropHead(s: seq<string>)
    requires s != []
    ensures multiset(s[1..]) == multiset(s) - multiset{s[0]}
  {
    assert s == [s[0]] + s[1..];
  }

  lemma SameHead(a: seq<string>, b: seq<string>)
    requires Ordered(a) && Ordered(b) && multiset(a) == multiset(b) && a != [] && b != []
    ensures a[0] == b[0] && multiset(a[1..]) == multiset(b[1..])
  {
    assert a[0] in multiset(a) && b[0] in multiset(b);
    HeadLeast(a, b[0]);
    HeadLeast(b, a[0]);
    LeqAntisymmetric(a[0], b[0]);
    DropHead(a);
    DropHead(b);
  }

  lemma {:induction false} OrderedUnique(a: seq<string>, b: seq<string>)
    requires Ordered(a) && Ordered(b) && multiset(a) == multiset(b)
    ensures a == b
  {
    assert |multiset(a)| == |a| && |multiset(b)| == |b|;
    if a != [] {
      SameHead(a, b);
      OrderedUnique(a[1..], b[1..]);
      assert a == [a[0]] + a[1..] && b == [b[0]] + b[1..];
    }
  }

  lemma SortForgetsOrder(a: seq<string>, b: seq<string>)
    ensures SortStrings(a) == SortStrings(b) <==> multiset(a) == multiset(b)
  {
    if multiset(a) == multiset(b) { OrderedUnique(SortStrings(a), SortStrings(b)); }
  }

  ghost predicate Least(k: string, s: set<string>) {
    k in s && forall j | j in s :: Leq(k, j)
  }

  lemma LeastStep(s: set<string>, k: string, m: string)
    requires k in s && Least(m, s - {k})
    ensures Least(k, s) || Least(m, s)
  {
    LeqTotal(k, m);
    LeqTotal(k, k);
    if Leq(k, m) {
      forall j | j in s ensures Leq(k, j) { if j != k { LeqTransitive(k, m, j); } }
    }
  }

  lemma {:induction false} LeastExists(s: set<string>)
    requires s != {}
    ensures exists k :: Least(k, s)
  {
    var k :| k in s;
    if s - {k} == {} {
      LeqTotal(k, k);
      assert s == {k};
      assert Least(k, s);
    } else {
      LeastExists(s - {k});
      var m :| Least(m, s - {k});
      LeastStep(s, k, m);
    }
  }

  lemma ListedStep(s: set<string>, k: string, t: seq<string>)
    requires Least(k, s) && Ordered(t) && multiset(t) == multiset(s - {k})
    ensures Ordered([k] + t) && multiset([k] + t) == multiset(s)
  {
    forall y | y in t ensures Leq(k, y) { assert y in multiset(t); }
    OrderedCons(k, t);
    assert multiset(s) == multiset(s - {k}) + multiset{k};
  }

  /** The elements of a set in byte order. */
  ghost function Listed(s: set<string>): (r: seq<string>)
    ensures Ordered(r) && multiset(r) == multiset(s) && |r| == |s|
  {
    if s == {} then []
    else
      LeastExists(s);
      var k :| Least(k, s);
      var t := Listed(s - {k});
      ListedStep(s, k, t);
      [k] + t
  }

  // ----- the encoding

  /** One field as `writeField` writes it: name, length of the value, the value. */
  function Field(name: string, value: string): (r: string)
    ensures |r| > 0
  {
    name + ":" + (Digits(|value|) + ":" + (value + ";"))
  }

  function Encode(fields: seq<(string, string)>): (r: string) {
    if fields == [] then "" else Field(fields[0].0, fields[0].1) + Encode(fields[1..])
  }

  lemma {:induction false} EncodeAppend(a: seq<(string, string)>, b: seq<(string, string)>)
    ensures Encode(a + b) == Encode(a) + Encode(b)
  {
    if a == [] {
      assert a + b == b;
    } else {
      assert (a + b)[1..] == a[1..] + b;
      EncodeAppend(a[1..], b);
    }
  }

  lemma EncodeOne(name: string, value: string)
    ensures Encode([(name, value)]) == Field(name, value)
  {
  }

  /** A field can be read back from the front of any longer stream, whatever bytes
      its value holds. */
  lemma FieldReadable(n: string, v: string, rest: string, n': string, v': string, rest': string)
    requires ':' !in n && ':' !in n'
    requires Field(n, v) + rest == Field(n', v') + rest'
    ensures n == n' && v == v' && rest == rest'
  {
    var x := Digits(|v|) + ":" + (v + ";");
    var x' := Digits(|v'|) + ":" + (v' + ";");
    assert Field(n, v) + rest == n + ":" + (x + rest);
    assert Field(n', v') + rest' == n' + ":" + (x' + rest');
    SplitAt(':', n, x + rest, n', x' + rest');
    var y, y' := v + ";" + rest, v' + ";" + rest';
    assert x + rest == Digits(|v|) + ":" + y;
    assert x' + rest' == Digits(|v'|) + ":" + y';
    SplitAt(':', Digits(|v|), y, Digits(|v'|), y');
    DigitsInjective(|v|, |v'|);
    assert v == y[..|v|] && v' == y'[..|v|];
    assert rest == y[|v| + 1..] && rest' == y'[|v| + 1..];
  }

  ghost predicate PlainNames(fields: seq<(string, string)>) {
    forall i :: 0 <= i < |fields| ==> ':' !in fields[i].0
  }

  /** The encoding is injective on field lists. */
  lemma {:induction false} EncodeInjective(a: seq<(string, string)>, b: seq<(string, string)>)
    requires PlainNames(a) && PlainNames(b)
    requires Encode(a) == Encode(b)
    ensures a == b
  {
    if a != [] && b != [] {
      FieldReadable(a[0].0, a[0].1, Encode(a[1..]), b[0].0, b[0].1, Encode(b[1..]));
      EncodeInjective(a[1..], b[1..]);
      assert a == [a[0]] + a[1..] && b == [b[0]] + b[1..];
    }
  }

  // ----- the fields of a request

  function FormatBool(b: bool): string { if b then "true" else "false" }

  function Scalars(r: Request): (s: seq<(string, string)>)
    ensures |s| == 10 && PlainNames(s)
  {
    [("op", r.operation), ("case", r.caseID), ("client", r.clientID), ("artifact", r.artifact),
     ("profile", r.profile), ("hunt", r.huntID), ("flow", r.flowID), ("upload", r.uploadName),
     ("label", r.labelName), ("all", FormatBool(r.targetAll))]
  }

  function Pair(k: string, v: string): (s: seq<(string, string)>)
    ensures |s| == 2 && PlainNames(s)
  {
    [("paramkey", k), ("paramvalue", v)]
  }

  function ParamFields(keys: seq<string>, m: map<string, string>): (s: seq<(string, string)>)
    requires forall k | k in keys :: k in m
    ensures |s| == 2 * |keys|
    ensures PlainNames(s)
  {
    if keys == [] then []
    else
      var front := keys[..|keys| - 1];
      var last := keys[|keys| - 1];
      ParamFields(front, m) + Pair(last, m[last])
  }

  function IdFields(ids: seq<string>): (s: seq<(string, string)>)
    ensures |s| == |ids| && forall i :: 0 <= i < |ids| ==> s[i] == ("clientid", ids[i])
    ensures PlainNames(s)
  {
    seq(|ids|, i requires 0 <= i < |ids| => ("clientid", ids[i]))
  }

  /** Every field the fingerprint covers, in the order it is hashed. */
  function FieldList(r: Request, keys: seq<string>, ids: seq<string>): seq<(string, string)>
    requires forall k | k in keys :: k in r.parameters
  {
    Scalars(r) + ([("paramcount", Digits(|keys|))] + (ParamFields(keys, r.parameters)
    + ([("clientidcount", Digits(|ids|))] + IdFields(ids))))
  }

  ghost function Keys(r: Request): (keys: seq<string>)
    ensures forall k :: k in keys <==> k in r.parameters
  {
    var keys := Listed(r.parameters.Keys);
    assert forall k :: k in keys <==> k in multiset(keys);
    keys
  }

  /** The bytes fed to the hash. */
  ghost function Stream(r: Request): string {
    Encode(FieldList(r, Keys(r), SortStrings(r.clientIDs)))
  }

  lemma FieldListPlain(r: Request, keys: seq<string>, ids: seq<string>)
    requires forall k | k in keys :: k in r.parameters
    ensures PlainNames(FieldList(r, keys, ids))
  {
  }

  lemma Prefix<T>(a: seq<T>, x: seq<T>, b: seq<T>, y: seq<T>)
    requires |a| == |b| && a + x == b + y
    ensures a == b && x == y
  {
    assert a == (a + x)[..|a|] && b == (b + y)[..|a|];
    assert x == (a + x)[|a|..] && y == (b + y)[|a|..];
  }

  lemma {:induction false} ParamsReadable(ka: seq<string>, ma: map<string, string>, kb: seq<string>,
                                          mb: map<string, string>)
    requires |ka| == |kb| && (forall k | k in ka :: k in ma) && (forall k | k in kb :: k in mb)
    requires ParamFields(ka, ma) == ParamFields(kb, mb)
    ensures ka == kb && forall k | k in ka :: ma[k] == mb[k]
  {
    if ka != [] {
      var n := |ka| - 1;
      var fa, fb := ParamFields(ka, ma), ParamFields(kb, mb);
      assert fa[2 * n] == ("paramkey", ka[n]) && fb[2 * n] == ("paramkey", kb[n]);
      assert fa[2 * n + 1] == ("paramvalue", ma[ka[n]]) && fb[2 * n + 1] == ("paramvalue", mb[kb[n]]);
      assert fa[..2 * n] == ParamFields(ka[..n], ma) && fb[..2 * n] == ParamFields(kb[..n], mb);
      ParamsReadable(ka[..n], ma, kb[..n], mb);
      assert ka == ka[..n] + [ka[n]] && kb == kb[..n] + [kb[n]];
    }
  }

  lemma IdsReadable(a: seq<string>, b: seq<string>)
    requires IdFields(a) == IdFields(b)
    ensures a == b
  {
  }

  lemma CountReadable(name: string, m: nat, n: nat)
    requires [(name, Digits(m))] == [(name, Digits(n))]
    ensures m == n
  {
  }

  /** All parts of a field list can be read back from it. */
  lemma FieldListReadable(a: Request, ka: seq<string>, ia: seq<string>, b: Request, kb: seq<string>, ib: seq<string>)
    requires (forall k | k in ka :: k in a.parameters) && (forall k | k in kb :: k in b.parameters)
    requires FieldList(a, ka, ia) == FieldList(b, kb, ib)
    ensures Scalars(a) == Scalars(b) && ka == kb && ia == ib
    ensures forall k | k in ka :: a.parameters[k] == b.parameters[k]
  {
    var pa, pb := ParamFields(ka, a.parameters), ParamFields(kb, b.parameters);
    var ca, cb := [("paramcount", Digits(|ka|))], [("paramcount", Digits(|kb|))];
    var da, db := [("clientidcount", Digits(|ia|))], [("clientidcount", Digits(|ib|))];
    Prefix(Scalars(a), ca + (pa + (da + IdFields(ia))), Scalars(b), cb + (pb + (db + IdFields(ib))));
    Prefix(ca, pa + (da + IdFields(ia)), cb, pb + (db + IdFields(ib)));
    CountReadable("paramcount", |ka|, |kb|);
    Prefix(pa, da + IdFields(ia), pb, db + IdFields(ib));
    Prefix(da, IdFields(ia), db, IdFields(ib));
    ParamsReadable(ka, a.parameters, kb, b.parameters);
    IdsReadable(ia, ib);
  }

  lemma ScalarsReadable(a: Request, b: Request)
    requires Scalars(a) == Scalars(b)
    ensures && a.operation == b.operation && a.caseID == b.caseID && a.clientID == b.clientID
            && a.artifact == b.artifact && a.profile == b.profile && a.huntID == b.huntID
            && a.flowID == b.flowID && a.uploadName == b.uploadName && a.labelName == b.labelName
            && a.targetAll == b.targetAll
  {
  }

  lemma SameParameters(a: Request, b: Request)
    requires Keys(a) == Keys(b) && forall k | k in Keys(a) :: a.parameters[k] == b.parameters[k]
    ensures a.parameters == b.parameters
  {
  }

  lemma StreamReadable(a: Request, b: Request)
    requires Stream(a) == Stream(b)
    ensures SameTarget(a, b)
  {
    var ka, ia, kb, ib := Keys(a), SortStrings(a.clientIDs), Keys(b), SortStrings(b.clientIDs);
    FieldListPlain(a, ka, ia);
    FieldListPlain(b, kb, ib);
    EncodeInjective(FieldList(a, ka, ia), FieldList(b, kb, ib));
    FieldListReadable(a, ka, ia, b, kb, ib);
    ScalarsReadable(a, b);
    SameParameters(a, b);
    SortForgetsOrder(a.clientIDs, b.clientIDs);
  }

  lemma StreamForgets(a: Request, b: Request)
    requires SameTarget(a, b)
    ensures Stream(a) == Stream(b)
  {
    SortForgetsOrder(a.clientIDs, b.clientIDs);
    assert Keys(a) == Keys(b);
    assert Scalars(a) == Scalars(b);
  }

  /** The hashed bytes are equal exactly when the two requests ask for the same thing. */
  lemma StreamIdentifiesTarget(a: Request, b: Request)
    ensures Stream(a) == Stream(b) <==> SameTarget(a, b)
  {
    if SameTarget(a, b) { StreamForgets(a, b); }
    if Stream(a) == Stream(b) { StreamReadable(a, b); }
  }

  // ----- the program

  /** The hash accumulator, seen as the bytes written so far. */
  class Hash {
    var written: string

    constructor ()
      ensures written == ""
    {
      written := "";
    }

    method WriteField(name: string, value: string)
      modifies this
      ensures written == old(written) + Field(name, value)
    {
      written := written + (name + ":" + Digits(|value|) + ":");
      written := written + value;
      written := written + ";";
      assert written == old(written) + Field(name, value);
    }
  }

  /** The keys of the map in whatever order Go's map iteration yields them. */
  method RangeKeys(m: map<string, string>) returns (keys: seq<string>)
    ensures multiset(keys) == multiset(m.Keys)
  {
    keys := [];
    var todo := m.Keys;
    while todo != {}
      invariant todo <= m.Keys
      invariant multiset(keys) + multiset(todo) == multiset(m.Keys)
      decreases todo
    {
      var k :| k in todo;
      assert multiset(todo) == multiset(todo - {k}) + multiset{k};
      keys := keys + [k];
      todo := todo - {k};
    }
  }

  /** A run of consecutive `writeField` calls. */
  method WriteFields(h: Hash, fields: seq<(string, string)>)
    modifies h
    ensures h.written == old(h.written) + Encode(fields)
  {
    var i := 0;
    while i < |fields|
      invariant 0 <= i <= |fields|
      invariant h.written == old(h.written) + Encode(fields[..i])
    {
      h.WriteField(fields[i].0, fields[i].1);
      Extend(fields, i);
      Group(old(h.written), Encode(fields[..i]), Field(fields[i].0, fields[i].1));
      i := i + 1;
    }
    assert fields[..i] == fields;
  }

  method WriteParams(h: Hash, keys: seq<string>, params: map<string, string>)
    requires forall k | k in keys :: k in params
    modifies h
    ensures h.written == old(h.written) + Encode(ParamFields(keys, params))
  {
    var i := 0;
    while i < |keys|
      invariant 0 <= i <= |keys|
      invariant h.written == old(h.written) + Encode(ParamFields(keys[..i], params))
    {
      var k := keys[i];
      ghost var before := Encode(ParamFields(keys[..i], params));
      WriteFields(h, Pair(k, params[k]));
      ParamsExtend(keys, i, params);
      Group(old(h.written), before, Encode(Pair(k, params[k])));
      i := i + 1;
    }
    assert keys[..i] == keys;
  }

  method WriteIds(h: Hash, ids: seq<string>)
    modifies h
    ensures h.written == old(h.written) + Encode(IdFields(ids))
  {
    ghost var fields := IdFields(ids);
    var i := 0;
    while i < |ids|
      invariant 0 <= i <= |ids|
      invariant h.written == old(h.written) + Encode(fields[..i])
    {
      h.WriteField("clientid", ids[i]);
      Extend(fields, i);
      Group(old(h.written), Encode(fields[..i]), Field("clientid", ids[i]));
      i := i + 1;
    }
    assert fields[..i] == fields;
  }

  method SortedKeys(req: Request) returns (keys: seq<string>)
    ensures keys == Keys(req)
  {
    keys := RangeKeys(req.parameters);
    keys := SortStrings(keys);
    OrderedUnique(keys, Keys(req));
  }

  /** Writes a request's fields one by one into `h`. */
  method WriteRequest(h: Hash, req: Request, keys: seq<string>, ids: seq<string>)
    requires forall k | k in keys :: k in req.parameters
    modifies h
    ensures h.written == old(h.written) + Encode(FieldList(req, keys, ids))
  {
    WriteFields(h, Scalars(req));
    WriteFields(h, [("paramcount", Digits(|keys|))]);
    WriteParams(h, keys, req.parameters);
    WriteFields(h, [("clientidcount", Digits(|ids|))]);
    WriteIds(h, ids);
    FiveParts(old(h.written), Scalars(req), [("paramcount", Digits(|keys|))], ParamFields(keys, req.parameters),
              [("clientidcount", Digits(|ids|))], IdFields(ids));
  }

  /** `RequestFingerprint` up to the digest: the stream it hashes, which does not
      depend on the order in which the map is walked. */
  method RequestFingerprint(req: Request) returns (stream: string)
    ensures stream == Stream(req)
  {
    var h := new Hash();
    var keys := SortedKeys(req);
    var ids := SortStrings(req.clientIDs);
    WriteRequest(h, req, keys, ids);
    stream := h.written;
  }

  lemma FiveParts(w: string, a: seq<(string, string)>, b: seq<(string, string)>, c: seq<(string, string)>,
                  d: seq<(string, string)>, e: seq<(string, string)>)
    ensures w + Encode(a) + Encode(b) + Encode(c) + Encode(d) + Encode(e) == w + Encode(a + (b + (c + (d + e))))
  {
    EncodeAppend(a, b + (c + (d + e)));
    EncodeAppend(b, c + (d + e));
    EncodeAppend(c, d + e);
    EncodeAppend(d, e);
    Reassociate(w, Encode(a), Encode(b), Encode(c), Encode(d), Encode(e));
  }

  lemma Group(w: string, a: string, b: string)
    ensures w + (a + b) == w + a + b
  {
  }

  lemma Reassociate(w: string, a: string, b: string, c: string, d: string, e: string)
    ensures w + a + b + c + d + e == w + (a + (b + (c + (d + e))))
  {
  }

  lemma ParamsExtend(keys: seq<string>, i: nat, m: map<string, string>)
    requires i < |keys| && forall k | k in keys :: k in m
    ensures Encode(ParamFields(keys[..i + 1], m))
         == Encode(ParamFields(keys[..i], m)) + Encode(Pair(keys[i], m[keys[i]]))
  {
    assert keys[..i + 1][..i] == keys[..i];
    EncodeAppend(ParamFields(keys[..i], m), Pair(keys[i], m[keys[i]]));
  }

  lemma Extend(fields: seq<(string, string)>, i: nat)
    requires i < |fields|
    ensures Encode(fields[..i + 1]) == Encode(fields[..i]) + Field(fields[i].0, fields[i].1)
  {
    assert fields[..i + 1] == fields[..i] + [fields[i]];
    EncodeAppend(fields[..i], [fields[i]]);
    EncodeOne(fields[i].0, fields[i].1);
  }
}
