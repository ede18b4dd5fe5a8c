/** An already-parsed JSON document, as `org.json.JSONObject` holds it, with
    the accessors the viewer calls. Reading follows Android's `org.json`:
    `get...` on a missing key throws (here: `None`), `getString`/`optString`
    turn a non-string value into its text (JSON null reads as "null"), and
    `opt...` returns null (here: `None`) for a missing or mistyped value. */
module Json {
  import opened Wrappers
  import Strings

  /** A JSON value. A number carries the text the library prints it as. */
  datatype Json =
    | Null
    | Bool(b: bool)
    | Number(text: string)
    | Str(s: string)
    | Arr(elems: seq<Json>)
    | Obj(members: seq<Member>)

  /** One name/value pair of an object, in the object's iteration order. */
  datatype Member = Member(key: string, value: Json)

  /** A parsed object never holds a name twice. */
  predicate DistinctKeys(members: seq<Member>) {
    forall i, j :: 0 <= i < j < |members| ==> members[i].key != members[j].key
  }

  /** `keys()`, in iteration order. */
  function Keys(members: seq<Member>): (keys: seq<string>)
    ensures |keys| == |members|
    ensures forall i :: 0 <= i < |members| ==> keys[i] == members[i].key
  {
    seq(|members|, i requires 0 <= i < |members| => members[i].key)
  }

  /** `opt(name)`: the value stored under `name`, if any. */
  function Opt(members: seq<Member>, name: string): (v: Option<Json>)
    ensures v.None? <==> name !in Keys(members)
  {
    var i := Strings.IndexOfFirst(Keys(members), name);
    if i < 0 then None else Some(members[i].value)
  }

  /** With distinct names, the value found is the one stored under the name. */
  lemma OptFindsMember(members: seq<Member>, i: nat)
    requires DistinctKeys(members)
    requires i < |members|
    ensures Opt(members, members[i].key) == Some(members[i].value)
  {
    var k := Strings.IndexOfFirst(Keys(members), members[i].key);
    assert Keys(members)[i] == members[i].key;
    assert k <= i;
    assert members[k].key == members[i].key;
  }

  /** `has(name)`. */
  predicate Has(members: seq<Member>, name: string) {
    Opt(members, name).Some?
  }

  /** The object stored under `name`. `getJSONObject` throws and
      `optJSONObject` returns null exactly when this is `None`. */
  function ObjectAt(members: seq<Member>, name: string): Option<seq<Member>> {
    match Opt(members, name)
    case Some(Obj(m)) => Some(m)
    case _ => None
  }

  /** `optJSONArray(name)`. */
  function ArrayAt(members: seq<Member>, name: string): Option<seq<Json>> {
    match Opt(members, name)
    case Some(Arr(a)) => Some(a)
    case _ => None
  }

  /** `getString(name)`: throws (here: `None`) only when the name is missing. */
  function GetString(members: seq<Member>, name: string): (r: Option<string>)
    ensures r.None? <==> !Has(members, name)
  {
    match Opt(members, name)
    case None => None
    case Some(v) => Some(AsText(v))
  }

  /** `optString(name, fallback)`. */
  function OptString(members: seq<Member>, name: string, fallback: string): (r: string)
    ensures !Has(members, name) ==> r == fallback
    ensures Has(members, name) ==> Some(r) == GetString(members, name)
  {
    match Opt(members, name)
    case None => fallback
    case Some(v) => AsText(v)
  }

  /** `isNull(name)`: missing, or JSON null. */
  predicate IsNull(members: seq<Member>, name: string) {
    Opt(members, name) == None || Opt(members, name) == Some(Null)
  }

  /** `JSONArray.getJSONObject(i)`: the element, when it is an object. */
  function ObjectElement(v: Json): Option<seq<Member>> {
    if v.Obj? then Some(v.members) else None
  }

  // ---------------------------------------------------------------------------
  // Text of a value read as a string (String.valueOf of the stored object)
  // ---------------------------------------------------------------------------

  function AsText(v: Json): string {
    match v
    case Str(s) => s
    case _ => Render(v)
  }

  /** The compact JSON text `toString()` gives. */
  function Render(v: Json): string
    decreases v, 1, 0
  {
    match v
    case Null => "null"
    case Bool(b) => if b then "true" else "false"
    case Number(t) => t
    case Str(s) => Quote(s)
    case Arr(elems) => "[" + RenderElems(v, 0) + "]"
    case Obj(members) => "{" + RenderMembers(v, 0) + "}"
  }

  function RenderElems(v: Json, i: nat): string
    requires v.Arr?
    decreases v, 0, |v.elems| - i
  {
    if i >= |v.elems| then ""
    else (if i > 0 then "," else "") + Render(v.elems[i]) + RenderElems(v, i + 1)
  }

  function RenderMembers(v: Json, i: nat): string
    requires v.Obj?
    decreases v, 0, |v.members| - i
  {
    if i >= |v.members| then ""
    else
      var m := v.members[i];
      assert m.value < v;
      (if i > 0 then "," else "") + Quote(m.key) + ":" + Render(m.value) + RenderMembers(v, i + 1)
  }

  /** A string literal with `"`, `\` and `/` escaped, the usual short escapes,
      and `\u00XX` for other control characters. */
  function Quote(s: string): string {
    "\"" + Escape(s) + "\""
  }

  function Escape(s: string): string
    decreases |s|
  {
    if s == [] then ""
    else
      var c := s[0];
      var e :=
        if c == '"' || c == '\\' || c == '/' then ['\\', c]
        else if c == '\t' then "\\t"
        else if c == '\U{8}' then "\\b"
        else if c == '\n' then "\\n"
        else if c == '\r' then "\\r"
        else if c == '\U{C}' then "\\f"
        else if c <= '\U{1F}' then "\\u00" + [HexDigit(c as int / 16), HexDigit(c as int % 16)]
        else [c];
      e + Escape(s[1..])
  }

  function HexDigit(d: nat): char
    requires d < 16
  {
    if d < 10 then ('0' as int + d) as char else ('a' as int + d - 10) as char
  }
}
