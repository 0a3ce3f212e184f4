/** Redaction of value trees (internal/audit/sanitize.go:14-174): by field name in any spelling,
and by content in every string leaf. */
module SanitizeTree {
  import opened Text
  import opened Redaction

  // ----- field names

  /** A map on letters that leaves the separators alone and makes no other letter into one, as
      Unicode lower-casing does. */
  ghost predicate FoldsCase(lower: char -> char) {
    forall c :: (lower(c) == '_' <==> c == '_') && (lower(c) == '-' <==> c == '-')
  }

  /** `strings.ToLower`, letter by letter. */
  function Lower(lower: char -> char, s: string): (r: string)
    ensures |r| == |s|
  {
    seq(|s|, i requires 0 <= i < |s| => lower(s[i]))
  }

  function Without(s: string, c: char): (r: string) {
    if s == "" then "" else (if s[0] == c then "" else [s[0]]) + Without(s[1..], c)
  }

  /** `normalizeFieldName`: lower case, then no underscores, then no hyphens. */
  function Normalize(lower: char -> char, name: string): (r: string) {
    Without(Without(Lower(lower, name), '_'), '-')
  }

  predicate Separator(c: char) {
    c == '_' || c == '-'
  }

  /** The same name in two spellings: equal letter by letter, whatever the case, once the
      separators of either side are passed over. */
  predicate SpelledLike(lower: char -> char, a: string, b: string)
    decreases |a| + |b|
  {
    if a != "" && Separator(a[0]) then SpelledLike(lower, a[1..], b)
    else if b != "" && Separator(b[0]) then SpelledLike(lower, a, b[1..])
    else if a == "" || b == "" then a == b
    else lower(a[0]) == lower(b[0]) && SpelledLike(lower, a[1..], b[1..])
  }

  lemma WithoutHead(c: char, s: string, x: char)
    ensures Without([c] + s, x) == if c == x then Without(s, x) else [c] + Without(s, x)
  {
    assert ([c] + s)[1..] == s;
  }

  lemma NormalizeHead(lower: char -> char, s: string)
    requires FoldsCase(lower) && s != ""
    ensures Normalize(lower, s)
         == if Separator(s[0]) then Normalize(lower, s[1..]) else [lower(s[0])] + Normalize(lower, s[1..])
  {
    var c, rest := lower(s[0]), Lower(lower, s[1..]);
    assert Lower(lower, s) == [c] + rest;
    WithoutHead(c, rest, '_');
    WithoutHead(c, Without(rest, '_'), '-');
  }

  /** Two names normalize alike exactly when they are spellings of one name. */
  lemma {:induction false} NormalizeSpelling(lower: char -> char, a: string, b: string)
    requires FoldsCase(lower)
    ensures Normalize(lower, a) == Normalize(lower, b) <==> SpelledLike(lower, a, b)
    decreases |a| + |b|
  {
    if a != "" { NormalizeHead(lower, a); }
    if b != "" { NormalizeHead(lower, b); }
    if a != "" && Separator(a[0]) {
      NormalizeSpelling(lower, a[1..], b);
    } else if b != "" && Separator(b[0]) {
      NormalizeSpelling(lower, a, b[1..]);
    } else if a != "" && b != "" {
      NormalizeSpelling(lower, a[1..], b[1..]);
      assert Normalize(lower, a)[1..] == Normalize(lower, a[1..]);
      assert Normalize(lower, b)[1..] == Normalize(lower, b[1..]);
    }
  }

  // ----- the list of names

  const DEFAULTS :=
    ["client_private_key", "client_cert", "ca_certificate", "api_key", "approval_token", "password", "secret"]

  datatype Sanitizer = Sanitizer(lower: char -> char, redactKeys: set<string>)

  /** `name` is a spelling of one of `names`. */
  ghost predicate Lists(lower: char -> char, names: seq<string>, name: string) {
    exists i :: 0 <= i < |names| && SpelledLike(lower, names[i], name)
  }

  /** One of the two loops of `NewSanitizer`. */
  method AddNames(lower: char -> char, keys: set<string>, names: seq<string>) returns (r: set<string>)
    requires FoldsCase(lower)
    ensures forall name :: Normalize(lower, name) in r <==> Normalize(lower, name) in keys || Lists(lower, names, name)
  {
    r := keys;
    for i := 0 to |names|
      invariant forall x :: x in r <==> x in keys || exists j :: 0 <= j < i && Normalize(lower, names[j]) == x
    {
      r := r + {Normalize(lower, names[i])};
    }
    forall name
      ensures Normalize(lower, name) in r <==> Normalize(lower, name) in keys || Lists(lower, names, name)
    {
      forall i | 0 <= i < |names|
        ensures Normalize(lower, names[i]) == Normalize(lower, name) <==> SpelledLike(lower, names[i], name)
      {
        NormalizeSpelling(lower, names[i], name);
      }
    }
  }

  /** `NewSanitizer`: exactly the spellings of the built-in names and of the operator's extra
      ones are redacted; extra names never take a built-in one away. */
  method NewSanitizer(lower: char -> char, extra: seq<string>) returns (z: Sanitizer)
    requires FoldsCase(lower)
    ensures z.lower == lower
    ensures forall name :: ShouldRedact(z, name) <==> Lists(lower, DEFAULTS, name) || Lists(lower, extra, name)
  {
    var keys := AddNames(lower, {}, DEFAULTS);
    keys := AddNames(lower, keys, extra);
    return Sanitizer(lower, keys);
  }

  predicate ShouldRedact(z: Sanitizer, name: string) {
    Normalize(z.lower, name) in z.redactKeys
  }

  // ----- value trees

  datatype Value =
    | Null
    | Text(text: string)
    | Scalar(bits: int)                        // numbers, booleans: kept as they are
    | Slice(items: seq<Value>)
    | Dict(entries: map<string, Value>)
    | Struct(fields: seq<Field>)
    | Ref(target: Value)
    | NilRef

  /** A struct field; `tag` is its json tag, empty when there is none. */
  datatype Field = Field(name: string, tag: string, exported: bool, value: Value)

  function TagName(tag: string): (r: string) {
    var comma := Index(tag, ",");
    if comma >= 0 then tag[..comma] else tag
  }

  /** The name under which a field is written out. */
  function WireName(f: Field): (r: string) {
    var t := TagName(f.tag);
    if t != "" && t != "-" then t else f.name
  }

  predicate Hidden(z: Sanitizer, f: Field) {
    ShouldRedact(z, WireName(f)) || ShouldRedact(z, f.name)
  }

  /** What sanitizing a tree means. */
  function Clean(m: Marks, z: Sanitizer, v: Value): (r: Value)
    decreases v
  {
    match v
    case Text(s) => Text(Redact(m, s))
    case Slice(items) => Slice(seq(|items|, i requires 0 <= i < |items| => Clean(m, z, items[i])))
    case Dict(entries) =>
      Dict(map k | k in entries :: if ShouldRedact(z, k) then Text(m.placeholder) else Clean(m, z, entries[k]))
    case Struct(fields) => Dict(CleanFields(m, z, fields))
    case Ref(target) => Clean(m, z, target)
    case NilRef => Null
    case _ => v
  }

  /** Later fields win over earlier ones with the same wire name. */
  function CleanFields(m: Marks, z: Sanitizer, fields: seq<Field>): (r: map<string, Value>)
    decreases fields
  {
    if fields == [] then map[]
    else
      var f := fields[|fields| - 1];
      var before := CleanFields(m, z, fields[..|fields| - 1]);
      if !f.exported then before
      else before[WireName(f) := if Hidden(z, f) then Text(m.placeholder) else Clean(m, z, f.value)]
  }

  /** `SanitizeAny`. */
  method SanitizeAny(m: Marks, z: Sanitizer, v: Value) returns (r: Value)
    requires Safe(m)
    ensures r == Clean(m, z, v)
    decreases v
  {
    match v
    case Null => return Null;
    case Scalar(_) => return v;
    case Text(s) =>
      var t := SanitizeString(m, s);
      return Text(t);
    case Slice(items) =>
      var out := SanitizeItems(m, z, items);
      return Slice(out);
    case Dict(entries) =>
      var out := SanitizeEntries(m, z, v);
      return Dict(out);
    case Struct(fields) =>
      var out := SanitizeStruct(m, z, fields);
      return Dict(out);
    case Ref(target) =>
      r := SanitizeAny(m, z, target);
    case NilRef => return Null;
  }

  /** The slice case. */
  method SanitizeItems(m: Marks, z: Sanitizer, items: seq<Value>) returns (out: seq<Value>)
    requires Safe(m)
    ensures |out| == |items| && forall i | 0 <= i < |items| :: out[i] == Clean(m, z, items[i])
    decreases items
  {
    out := [];
    for i := 0 to |items|
      invariant |out| == i && forall j | 0 <= j < i :: out[j] == Clean(m, z, items[j])
    {
      var x := SanitizeAny(m, z, items[i]);
      out := out + [x];
    }
  }

  /** The map case, in whatever order the map gives its keys. */
  method SanitizeEntries(m: Marks, z: Sanitizer, v: Value) returns (out: map<string, Value>)
    requires Safe(m) && v.Dict?
    ensures Dict(out) == Clean(m, z, v)
    decreases v, 0
  {
    out := map[];
    var todo := v.entries.Keys;
    while todo != {}
      invariant todo <= v.entries.Keys && out.Keys == v.entries.Keys - todo
      invariant EntriesClean(m, z, v.entries, out)
      decreases |todo|
    {
      var k :| k in todo;
      if ShouldRedact(z, k) {
        out := out[k := Text(m.placeholder)];
      } else {
        var x := SanitizeAny(m, z, v.entries[k]);
        out := out[k := x];
      }
      todo := todo - {k};
    }
    AllEntriesClean(m, z, v, out);
  }

  ghost predicate EntriesClean(m: Marks, z: Sanitizer, entries: map<string, Value>, out: map<string, Value>) {
    forall k | k in out :: k in entries
        && out[k] == if ShouldRedact(z, k) then Text(m.placeholder) else Clean(m, z, entries[k])
  }

  lemma AllEntriesClean(m: Marks, z: Sanitizer, v: Value, out: map<string, Value>)
    requires v.Dict? && out.Keys == v.entries.Keys && EntriesClean(m, z, v.entries, out)
    ensures Dict(out) == Clean(m, z, v)
  {
  }

  /** `sanitizeStruct`. */
  method SanitizeStruct(m: Marks, z: Sanitizer, fields: seq<Field>) returns (out: map<string, Value>)
    requires Safe(m)
    ensures out == CleanFields(m, z, fields)
    decreases fields
  {
    out := map[];
    for i := 0 to |fields|
      invariant out == CleanFields(m, z, fields[..i])
    {
      var f := fields[i];
      assert fields[..i + 1][..i] == fields[..i];
      if f.exported {
        var name := f.name;
        if f.tag != "" {
          var tag := f.tag;
          var comma := Index(tag, ",");
          if comma >= 0 { tag := tag[..comma]; }
          if tag != "" && tag != "-" { name := tag; }
        }
        if ShouldRedact(z, name) || ShouldRedact(z, f.name) {
          out := out[name := Text(m.placeholder)];
        } else {
          var x := SanitizeAny(m, z, f.value);
          out := out[name := x];
        }
      }
    }
    assert fields[..|fields|] == fields;
  }

  // ----- what the output is

  /** A tree fit for an audit record: only the placeholder under a listed name at any depth, and
      no begin marker in any string leaf. */
  ghost predicate Guarded(m: Marks, z: Sanitizer, v: Value)
    decreases v
  {
    match v
    case Text(s) => !Contains(s, m.begin)
    case Slice(items) => forall i | 0 <= i < |items| :: Guarded(m, z, items[i])
    case Dict(entries) => forall k | k in entries ::
        if ShouldRedact(z, k) then entries[k] == Text(m.placeholder) else Guarded(m, z, entries[k])
    case Struct(_) => false
    case Ref(_) => false
    case NilRef => false
    case _ => true
  }

  lemma {:induction false} CleanGuards(m: Marks, z: Sanitizer, v: Value)
    requires Safe(m)
    ensures Guarded(m, z, Clean(m, z, v))
    decreases v
  {
    match v
    case Text(s) => RedactLeavesNoMarker(m, s);
    case Slice(items) =>
      forall i | 0 <= i < |items| ensures Guarded(m, z, Clean(m, z, items[i])) { CleanGuards(m, z, items[i]); }
    case Dict(entries) =>
      forall k | k in entries ensures Guarded(m, z, Clean(m, z, entries[k])) { CleanGuards(m, z, entries[k]); }
    case Struct(fields) => FieldsGuarded(m, z, fields);
    case Ref(target) => CleanGuards(m, z, target);
    case _ =>
  }

  lemma {:induction false} FieldsGuarded(m: Marks, z: Sanitizer, fields: seq<Field>)
    requires Safe(m)
    ensures Guarded(m, z, Dict(CleanFields(m, z, fields)))
    decreases fields
  {
    if fields != [] {
      var f := fields[|fields| - 1];
      FieldsGuarded(m, z, fields[..|fields| - 1]);
      PlaceholderGuarded(m);
      CleanGuards(m, z, f.value);
    }
  }

  lemma PlaceholderGuarded(m: Marks)
    requires Safe(m)
    ensures !Contains(m.placeholder, m.begin)
  {
  }

  lemma {:induction false} GuardedFixed(m: Marks, z: Sanitizer, v: Value)
    requires Safe(m) && Guarded(m, z, v)
    ensures Clean(m, z, v) == v
    decreases v
  {
    match v
    case Text(s) => RedactIdempotent(m, s);
    case Slice(items) =>
      forall i | 0 <= i < |items| ensures Clean(m, z, items[i]) == items[i] { GuardedFixed(m, z, items[i]); }
    case Dict(entries) =>
      forall k | k in entries && !ShouldRedact(z, k)
          ensures Clean(m, z, entries[k]) == entries[k] { GuardedFixed(m, z, entries[k]); }
    case _ =>
  }

  /** Sanitizing changes exactly the trees that are not fit, and doing it again changes nothing. */
  lemma CleanFixedPoint(m: Marks, z: Sanitizer, v: Value)
    requires Safe(m)
    ensures Clean(m, z, v) == v <==> Guarded(m, z, v)
    ensures Clean(m, z, Clean(m, z, v)) == Clean(m, z, v)
  {
    CleanGuards(m, z, v);
    GuardedFixed(m, z, Clean(m, z, v));
    if Guarded(m, z, v) { GuardedFixed(m, z, v); }
  }

  // ----- what the output does not depend on

  /** Two trees that differ at most under listed names and in fields that are not exported. */
  ghost predicate SameOutside(z: Sanitizer, v: Value, w: Value)
    decreases v
  {
    match v
    case Slice(items) => w.Slice? && |w.items| == |items| && forall i | 0 <= i < |items| ::
        SameOutside(z, items[i], w.items[i])
    case Dict(entries) =>
      w.Dict? && w.entries.Keys == entries.Keys
      && forall k | k in entries :: ShouldRedact(z, k) || SameOutside(z, entries[k], w.entries[k])
    case Struct(fields) =>
      w.Struct? && |w.fields| == |fields| && forall i | 0 <= i < |fields| :: SameField(z, fields[i], w.fields[i])
    case Ref(target) => w.Ref? && SameOutside(z, target, w.target)
    case _ => v == w
  }

  ghost predicate SameField(z: Sanitizer, f: Field, g: Field)
    decreases f
  {
    && f.name == g.name && f.tag == g.tag && f.exported == g.exported
    && (f.exported && !Hidden(z, f) ==> SameOutside(z, f.value, g.value))
  }

  /** Nothing under a listed name reaches the output. */
  lemma {:induction false} HiddenDoesNotMatter(m: Marks, z: Sanitizer, v: Value, w: Value)
    requires SameOutside(z, v, w)
    ensures Clean(m, z, v) == Clean(m, z, w)
    decreases v
  {
    match v
    case Slice(items) =>
      forall i | 0 <= i < |items| ensures Clean(m, z, items[i]) == Clean(m, z, w.items[i]) {
        HiddenDoesNotMatter(m, z, items[i], w.items[i]);
      }
    case Dict(entries) =>
      forall k | k in entries && !ShouldRedact(z, k) ensures Clean(m, z, entries[k]) == Clean(m, z, w.entries[k]) {
        HiddenDoesNotMatter(m, z, entries[k], w.entries[k]);
      }
    case Struct(fields) => HiddenFieldsDoNotMatter(m, z, fields, w.fields);
    case Ref(target) => HiddenDoesNotMatter(m, z, target, w.target);
    case _ =>
  }

  lemma {:induction false} HiddenFieldsDoNotMatter(m: Marks, z: Sanitizer, fs: seq<Field>, gs: seq<Field>)
    requires |fs| == |gs| && forall i | 0 <= i < |fs| :: SameField(z, fs[i], gs[i])
    ensures CleanFields(m, z, fs) == CleanFields(m, z, gs)
    decreases fs
  {
    if fs != [] {
      var n := |fs| - 1;
      HiddenFieldsDoNotMatter(m, z, fs[..n], gs[..n]);
      assert SameField(z, fs[n], gs[n]);
      if fs[n].exported && !Hidden(z, fs[n]) { HiddenDoesNotMatter(m, z, fs[n].value, gs[n].value); }
    }
  }

  // ----- where everything goes

  /** A field is written under the name in its tag, with or without options; under its Go name when
      the tag gives none or a dash. */
  lemma WireNameRule(f: Field, n: string, options: string)
    requires ',' !in n && (f.tag == n || f.tag == n + "," + options)
    ensures WireName(f) == if n != "" && n != "-" then n else f.name
  {
    assert [','] == ",";
    NoneOf(n, ',');
    FirstOf(n, ',', options);
    assert (n + "," + options)[..|n|] == n;
  }

  /** A field whose tag or Go name spells a listed name is hidden. */
  lemma ListedFieldIsHidden(z: Sanitizer, f: Field, n: string, options: string)
    requires ',' !in n && n != "" && n != "-" && (f.tag == n || f.tag == n + "," + options)
    ensures ShouldRedact(z, n) || ShouldRedact(z, f.name) <==> Hidden(z, f)
  {
    WireNameRule(f, n, options);
  }

  /** One step into a tree. */
  datatype Hop = Key(name: string) | Item(i: nat)

  /** What a reader may find there. */
  datatype Sight = Nothing | Secret | Seen(value: Value)

  /** The last exported field that goes by this name. */
  function FieldAt(fields: seq<Field>, name: string): (f: Option<Field>) {
    if fields == [] then None
    else
      var last := fields[|fields| - 1];
      if last.exported && WireName(last) == name then Some(last) else FieldAt(fields[..|fields| - 1], name)
  }

  /** One step into a tree to be sanitized: listed names and hidden fields are secret. */
  function Look(z: Sanitizer, v: Value, hop: Hop): (r: Sight)
    decreases v
  {
    match v
    case Ref(target) => Look(z, target, hop)
    case Slice(items) => if hop.Item? && hop.i < |items| then Seen(items[hop.i]) else Nothing
    case Dict(entries) =>
      if !hop.Key? || hop.name !in entries then Nothing
      else if ShouldRedact(z, hop.name) then Secret else Seen(entries[hop.name])
    case Struct(fields) =>
      var f := if hop.Key? then FieldAt(fields, hop.name) else None;
      if f.None? then Nothing else if Hidden(z, f.value) then Secret else Seen(f.value.value)
    case _ => Nothing
  }

  /** One step into a sanitized tree. */
  function Into(v: Value, hop: Hop): (r: Option<Value>) {
    if v.Slice? && hop.Item? && hop.i < |v.items| then Some(v.items[hop.i])
    else if v.Dict? && hop.Key? && hop.name in v.entries then Some(v.entries[hop.name])
    else None
  }

  /** What a step into the output finds, given what a step into the input finds. */
  ghost predicate Shows(m: Marks, z: Sanitizer, sight: Sight, found: Option<Value>) {
    match sight
    case Nothing => found == None
    case Secret => found == Some(Text(m.placeholder))
    case Seen(w) => found == Some(Clean(m, z, w))
  }

  lemma {:induction false} FieldsShow(m: Marks, z: Sanitizer, fields: seq<Field>, name: string)
    ensures var out, f := CleanFields(m, z, fields), FieldAt(fields, name);
            && (name in out <==> f.Some?)
            && (f.Some? ==> out[name] == if Hidden(z, f.value) then Text(m.placeholder) else Clean(m, z, f.value.value))
    decreases |fields|
  {
    if fields != [] { FieldsShow(m, z, fields[..|fields| - 1], name); }
  }

  lemma {:induction false} StepShows(m: Marks, z: Sanitizer, v: Value, hop: Hop)
    ensures Shows(m, z, Look(z, v, hop), Into(Clean(m, z, v), hop))
    decreases v
  {
    match v
    case Ref(target) => StepShows(m, z, target, hop);
    case Struct(fields) => if hop.Key? { FieldsShow(m, z, fields, hop.name); }
    case _ =>
  }

  function Walk(z: Sanitizer, v: Value, path: seq<Hop>): (r: Sight)
    decreases |path|
  {
    if path == [] then Seen(v)
    else
      match Look(z, v, path[0])
      case Seen(w) => Walk(z, w, path[1..])
      case Secret => if |path| == 1 then Secret else Nothing
      case Nothing => Nothing
  }

  function Follow(v: Value, path: seq<Hop>): (r: Option<Value>)
    decreases |path|
  {
    if path == [] then Some(v)
    else
      var w := Into(v, path[0]);
      if w.None? then None else Follow(w.value, path[1..])
  }

  /** Everything is where it was: along every path the output shows the placeholder where the input
      is secret, the sanitized value where it is not, and nothing where there is nothing. */
  lemma {:induction false} EverythingInPlace(m: Marks, z: Sanitizer, v: Value, path: seq<Hop>)
    ensures Shows(m, z, Walk(z, v, path), Follow(Clean(m, z, v), path))
    decreases |path|
  {
    if path != [] {
      StepShows(m, z, v, path[0]);
      match Look(z, v, path[0])
      case Seen(w) => EverythingInPlace(m, z, w, path[1..]);
      case Secret => if |path| > 1 { assert Into(Text(m.placeholder), path[1..][0]) == None; }
      case Nothing =>
    }
  }

  /** And the leaves are the values themselves, texts redacted. */
  lemma LeavesAsTheyWere(m: Marks, z: Sanitizer, v: Value)
    ensures v.Text? ==> Clean(m, z, v) == Text(Redact(m, v.text))
    ensures v.Scalar? || v.Null? ==> Clean(m, z, v) == v
    ensures v.NilRef? ==> Clean(m, z, v) == Null
    ensures v.Slice? ==> Clean(m, z, v).Slice? && |Clean(m, z, v).items| == |v.items|
    ensures v.Dict? ==> Clean(m, z, v).Dict? && Clean(m, z, v).entries.Keys == v.entries.Keys
    ensures v.Struct? ==> Clean(m, z, v).Dict?
    ensures v.Ref? ==> Clean(m, z, v) == Clean(m, z, v.target)
  {
  }
}
