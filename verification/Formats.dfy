// Output formats from the request to the document route (internal/types/requests.go,
// internal/worker/worker.go, internal/server/routes.go). Go maps iterate in no particular order.
module Formats {
  import opened Uniques
  import opened Wrappers
  import opened Text

  // A decoded JSON value.
  datatype Json =
    | Null | Bool(b: bool) | Number(n: int) | Str(s: string) | Arr(items: seq<Json>) | Obj(fields: map<string, Json>)

  // A Go slice that may be nil; None is also the failure of a decoder where an error is returned.
  type FormatList = Option<seq<string>>

  datatype Decoded = Decoded(list: FormatList) | DecodeError

  const MARKDOWN := "markdown"

  // ----- Normal form -----

  function Normal(v: string): string {
    TrimSpace(Lower(v))
  }

  function Normalized(vs: seq<string>): seq<string> {
    FirstOccurrences(Mapped(Normal, vs), "")
  }

  method NormalizeFormats(in_: seq<string>) returns (out: seq<string>)
    ensures out == Normalized(in_)
  {
    var seen: set<string> := {};
    out := [];
    ghost var normal := Mapped(Normal, in_);
    for i := 0 to |in_|
      invariant forall v :: v in seen <==> v in normal[..i] && v != ""
      invariant out == FirstOccurrences(normal[..i], "")
    {
      assert normal[..i + 1][..i] == normal[..i];
      assert normal[..i + 1] == normal[..i] + [normal[i]];
      var v := TrimSpace(Lower(in_[i]));
      if v == "" {
        continue;
      }
      if v in seen {
        continue;
      }
      seen := seen + {v};
      out := out + [v];
    }
    assert normal[..|in_|] == normal;
  }

  predicate IsLower(s: string) {
    Lower(s) == s
  }

  lemma {:induction false} TrimLeftKeepsLower(s: string)
    requires IsLower(s)
    ensures IsLower(TrimLeft(s))
    decreases |s|
  {
    if s != [] && IsSpace(s[0]) {
      assert forall i :: 0 <= i < |s| - 1 ==> s[1..][i] == s[i + 1] && Lower(s[1..])[i] == Lower(s)[i + 1];
      TrimLeftKeepsLower(s[1..]);
    }
  }

  lemma {:induction false} TrimRightKeepsLower(s: string)
    requires IsLower(s)
    ensures IsLower(TrimRight(s))
    decreases |s|
  {
    var n := |s| - 1;
    if s != [] && IsSpace(s[n]) {
      assert forall i :: 0 <= i < n ==> s[..n][i] == s[i] && Lower(s[..n])[i] == Lower(s)[i];
      TrimRightKeepsLower(s[..n]);
    }
  }

  lemma NormalIdempotent(v: string)
    ensures Normal(Normal(v)) == Normal(v) && IsLower(Normal(v))
  {
    LowerIdempotent(v);
    TrimLeftKeepsLower(Lower(v));
    TrimRightKeepsLower(TrimLeft(Lower(v)));
    TrimSpaceIdempotent(Lower(v));
  }

  // Normal lists: distinct, not blank, lower case, trimmed.
  ghost predicate IsNormal(vs: seq<string>) {
    Distinct(vs) && "" !in vs && forall i :: 0 <= i < |vs| ==> Normal(vs[i]) == vs[i] && IsLower(vs[i])
  }

  lemma NormalizedIsNormal(vs: seq<string>)
    ensures IsNormal(Normalized(vs))
    ensures IsNormal(vs) ==> Normalized(vs) == vs
  {
    var normal := Mapped(Normal, vs);
    FirstOccurrencesExact(normal, "");
    forall i | 0 <= i < |Normalized(vs)|
      ensures Normal(Normalized(vs)[i]) == Normalized(vs)[i] && IsLower(Normalized(vs)[i])
    {
      assert Normalized(vs)[i] in Normalized(vs);
      var k :| 0 <= k < |normal| && normal[k] == Normalized(vs)[i];
      NormalIdempotent(vs[k]);
    }
    if IsNormal(vs) {
      assert normal == vs;
      FirstOccurrencesIdempotent(vs, "");
    }
  }

  // ----- FormatList -----

  // Decoding into a []string; null elements stay the empty string.
  function Strings(items: seq<Json>): FormatList {
    if items == [] then Some([])
    else
      var rest := Strings(items[..|items| - 1]);
      match items[|items| - 1]
      case Str(s) => if rest == None then None else Some(rest.value + [s])
      case Null => if rest == None then None else Some(rest.value + [""])
      case _ => None
  }

  // UnmarshalJSON
  function Unmarshal(j: Json): Decoded {
    match j
    case Null => Decoded(None)
    case Str(v) => Decoded(Some(Normalized([v])))
    case Arr(items) => if Strings(items) == None then DecodeError else Decoded(Some(Normalized(Strings(items).value)))
    case _ => DecodeError
  }

  function AsStrings(vs: seq<string>): (items: seq<Json>)
    ensures |items| == |vs| && forall i :: 0 <= i < |vs| ==> items[i] == Str(vs[i])
  {
    seq(|vs|, i requires 0 <= i < |vs| => Str(vs[i]))
  }

  // MarshalJSON
  function Marshal(f: FormatList): Json {
    match f
    case None => Null
    case Some(vs) => Arr(AsStrings(vs))
  }

  function Values(f: FormatList, default: string): seq<string> {
    var vals := Normalized(f.GetOr([]));
    if vals == [] then [Lower(default)] else vals
  }

  // The raw value of a job's output_format parameter, as encoding/json decodes it into an any.
  function FormatsFromAny(raw: Json, default: string): seq<string> {
    match raw
    case Null => [Lower(default)]
    case Str(v) => Values(Some([v]), default)
    case _ =>
      match Unmarshal(raw)
      case DecodeError => [Lower(default)]
      case Decoded(list) => Values(list, default)
  }

  lemma {:induction false} StringsOfStrings(vs: seq<string>)
    ensures Strings(AsStrings(vs)) == Some(vs)
    decreases |vs|
  {
    if vs == [] {
    } else {
      var n := |vs| - 1;
      StringsOfStrings(vs[..n]);
      assert AsStrings(vs)[..n] == AsStrings(vs[..n]);
      assert vs == vs[..n] + [vs[n]];
    }
  }

  // Any decoded format list survives being stored as JSON: reading it back gives the list itself, and
  // what the worker and the document route make of the raw value is what Values says of the list.
  lemma StoredFormats(f: FormatList, default: string)
    ensures FormatsFromAny(Marshal(f), default) == Values(f, default)
    ensures (f.Some? ==> IsNormal(f.value)) ==> Unmarshal(Marshal(f)) == Decoded(f)
  {
    if f.Some? {
      StringsOfStrings(f.value);
      NormalizedIsNormal(f.value);
      NormalizedIsNormal(Normalized(f.value));
    }
  }

  // The raw value of a request reads as the list it decodes to.
  lemma RawFormats(raw: Json, default: string)
    requires Unmarshal(raw).Decoded?
    ensures FormatsFromAny(raw, default) == Values(Unmarshal(raw).list, default)
  {
    if raw.Str? {
      NormalizedIsNormal([raw.s]);
      NormalizedIsNormal(Normalized([raw.s]));
    }
  }

  lemma ValuesAreNormal(f: FormatList)
    ensures Values(f, MARKDOWN) != [] && IsNormal(Values(f, MARKDOWN))
  {
    NormalizedIsNormal(f.GetOr([]));
    assert Lower(MARKDOWN) == MARKDOWN;
    assert TrimLeft(MARKDOWN) == MARKDOWN && TrimRight(MARKDOWN) == MARKDOWN;
  }

  // The formats of a request: the trimmed lower-case forms of the values it gives that are not blank, each once,
  // in order of first appearance; markdown when there are none.
  lemma RequestedFormats(vs: seq<string>)
    ensures
      var names := FirstOccurrences(Mapped((v: string) => TrimSpace(Lower(v)), vs), "");
      && Unmarshal(Arr(AsStrings(vs))) == Decoded(Some(names))
      && (|vs| == 1 ==> Unmarshal(Str(vs[0])) == Decoded(Some(names)))
      && Values(Some(names), MARKDOWN) == (if names == [] then ["markdown"] else names)
    ensures Values(None, MARKDOWN) == ["markdown"]
  {
    assert Mapped((v: string) => TrimSpace(Lower(v)), vs) == Mapped(Normal, vs);
    UnmarshalStrings(vs);
    NormalizedTwice(vs);
    EmptyNormalized();
    MarkdownIsLower();
  }

  lemma UnmarshalStrings(vs: seq<string>)
    ensures Unmarshal(Arr(AsStrings(vs))) == Decoded(Some(Normalized(vs)))
    ensures |vs| == 1 ==> Unmarshal(Str(vs[0])) == Decoded(Some(Normalized(vs)))
  {
    StringsOfStrings(vs);
    if |vs| == 1 {
      UnmarshalString(vs);
    }
  }

  lemma UnmarshalString(vs: seq<string>)
    requires |vs| == 1
    ensures Unmarshal(Str(vs[0])) == Decoded(Some(Normalized(vs)))
  {
    assert vs == [vs[0]];
  }

  lemma MarkdownIsLower()
    ensures Lower(MARKDOWN) == MARKDOWN
  {
  }

  lemma NormalizedTwice(vs: seq<string>)
    ensures Normalized(Normalized(vs)) == Normalized(vs)
  {
    NormalizedIsNormal(vs);
    NormalizedIsNormal(Normalized(vs));
  }

  lemma EmptyNormalized()
    ensures Normalized([]) == []
  {
    assert Mapped(Normal, []) == [];
  }

  function Decode(requested: Option<Json>): Decoded {
    match requested
    case None => Decoded(None)
    case Some(raw) => Unmarshal(raw)
  }

  // ONE READING. Whatever a request carries as output_format (nothing, null, a string or a list), if
  // it decodes, then the formats the validator checks, those the worker renders and those the document
  // route asks for are the same list, not empty and in normal form.
  lemma FormatsAgree(requested: Option<Json>)
    requires Decode(requested).Decoded?
    ensures
      var formats := Values(Decode(requested).list, MARKDOWN);
      && FormatsFromAny(Marshal(Decode(requested).list), MARKDOWN) == formats
      && formats != [] && IsNormal(formats)
      && (requested.Some? ==> FormatsFromAny(requested.value, MARKDOWN) == formats)
  {
    var list := Decode(requested).list;
    StoredFormats(list, MARKDOWN);
    ValuesAreNormal(list);
    if requested.Some? {
      RawFormats(requested.value, MARKDOWN);
    }
  }
}
