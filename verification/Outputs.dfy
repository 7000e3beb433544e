// A document's outputs: rendered by the worker (internal/worker/worker.go), stored as JSON, and listed
// by the document route (internal/server/routes.go).
module Outputs {
  import opened Uniques
  import opened Wrappers
  import opened Text
  import opened Formats

  datatype Output = Output(format: string, content: string)

  const OUTPUTS_KEY := "outputs"

  // ----- Rendering in the worker -----

  // FormatContent of the page at hand; None is its error.
  type Renderer = string -> Option<string>

  datatype Rendered = Rendered(outputs: map<string, string>, primary: string)

  // The formats that are rendered: those requested, or markdown when none is left.
  function Wanted(formats: seq<string>): seq<string> {
    var named := FirstOccurrences(formats, "");
    if named == [] then [MARKDOWN] else named
  }

  ghost predicate AllRender(render: Renderer, formats: seq<string>) {
    forall f :: f in formats ==> render(f).Some?
  }

  // The content of each format, and as primary content the first that is not empty.
  ghost predicate Renders(render: Renderer, formats: seq<string>, r: Rendered) {
    && AllRender(render, formats)
    && r.outputs == (map f | f in formats :: render(f).value)
    && (r.primary == "" ==> forall f :: f in formats ==> render(f).value == "")
    && (r.primary != "" ==>
          exists i :: 0 <= i < |formats| && render(formats[i]).value == r.primary
                      && forall k :: 0 <= k < i ==> render(formats[k]).value == "")
  }

  lemma RendersMore(render: Renderer, formats: seq<string>, f: string, r: Rendered, next: Rendered)
    requires Renders(render, formats, r) && render(f).Some?
    requires next == Rendered(r.outputs[f := render(f).value], if r.primary == "" then render(f).value else r.primary)
    ensures Renders(render, formats + [f], next)
  {
    var more := formats + [f];
    assert forall k :: 0 <= k < |formats| ==> more[k] == formats[k];
    assert more[|formats|] == f;
    if r.primary != "" {
      var i :| 0 <= i < |formats| && render(formats[i]).value == r.primary
               && forall k :: 0 <= k < i ==> render(formats[k]).value == "";
      assert render(more[i]).value == next.primary;
    } else if next.primary != "" {
      assert render(more[|formats|]).value == next.primary;
    }
  }

  // The rendering part of fetchExtractAndStore.
  method RenderOutputs(render: Renderer, formats: seq<string>) returns (r: Option<Rendered>)
    ensures r.Some? <==> AllRender(render, Wanted(formats))
    ensures r.Some? ==> Renders(render, Wanted(formats), r.value)
  {
    var outputs: map<string, string> := map[];
    var primary := "";
    for i := 0 to |formats|
      invariant Renders(render, FirstOccurrences(formats[..i], ""), Rendered(outputs, primary))
    {
      ghost var done := FirstOccurrences(formats[..i], "");
      FirstOccurrencesExact(formats[..i], "");
      assert formats[..i + 1][..i] == formats[..i];
      var format := formats[i];
      if format == "" {
        continue;
      }
      if format in outputs {
        continue;
      }
      var content := render(format);
      if content == None {
        Unrendered(render, formats, format);
        return None;
      }
      RendersMore(
        render, done, format, Rendered(outputs, primary),
        Rendered(outputs[format := content.value], if primary == "" then content.value else primary));
      outputs := outputs[format := content.value];
      if primary == "" {
        primary := content.value;
      }
    }
    assert formats[..|formats|] == formats;
    FirstOccurrencesExact(formats, "");
    if FirstOccurrences(formats, "") != [] {
      SomethingRendered(render, Wanted(formats), Rendered(outputs, primary));
    }
    if |outputs| == 0 {
      var content := render(MARKDOWN);
      if content == None {
        assert MARKDOWN in Wanted(formats);
        return None;
      }
      outputs := outputs[MARKDOWN := content.value];
      primary := content.value;
      assert Renders(render, [MARKDOWN], Rendered(outputs, primary)) by {
        assert render([MARKDOWN][0]).value == primary;
      }
    }
    r := Some(Rendered(outputs, primary));
  }

  lemma Unrendered(render: Renderer, formats: seq<string>, format: string)
    requires format in formats && format != "" && render(format) == None
    ensures !AllRender(render, Wanted(formats))
  {
    FirstOccurrencesExact(formats, "");
    assert format in Wanted(formats);
  }

  lemma SomethingRendered(render: Renderer, formats: seq<string>, r: Rendered)
    requires Renders(render, formats, r) && formats != []
    ensures |r.outputs| > 0
  {
    assert formats[0] in r.outputs;
  }

  // storeDocument: the outputs as a JSON object.
  function Stored(outputs: map<string, string>): Json {
    Obj(map f | f in outputs :: Str(outputs[f]))
  }

  // ----- Listing in the document route -----

  function Preferred(preferred: seq<string>): (order: seq<string>)
    ensures order != []
  {
    var named := FirstOccurrences(Mapped(Lower, preferred), "");
    if named == [] then [MARKDOWN] else named
  }

  method EnsurePreferred(preferred: seq<string>) returns (out: seq<string>)
    ensures out == Preferred(preferred)
  {
    if |preferred| == 0 {
      assert Mapped(Lower, preferred) == [];
      return [MARKDOWN];
    }
    out := [];
    var seen: set<string> := {};
    ghost var lower := Mapped(Lower, preferred);
    for i := 0 to |preferred|
      invariant forall v :: v in seen <==> v in lower[..i] && v != ""
      invariant out == FirstOccurrences(lower[..i], "")
    {
      assert lower[..i + 1][..i] == lower[..i];
      assert lower[..i + 1] == lower[..i] + [lower[i]];
      var format := Lower(preferred[i]);
      if format == "" {
        continue;
      }
      if format in seen {
        continue;
      }
      seen := seen + {format};
      out := out + [format];
    }
    assert lower[..|preferred|] == lower;
    if |out| == 0 {
      return [MARKDOWN];
    }
  }

  // The outputs there are for the formats of `order`, in that order.
  function Picked(order: seq<string>, outputs: map<string, string>): seq<Output> {
    if order == [] then []
    else
      var n := |order| - 1;
      Picked(order[..n], outputs) + if order[n] in outputs then [Output(order[n], outputs[order[n]])] else []
  }

  ghost predicate Listed(result: seq<Output>, format: string) {
    exists i :: 0 <= i < |result| && result[i].format == format
  }

  // Every listed output is one of the map's, and no format is listed twice.
  ghost predicate Genuine(result: seq<Output>, outputs: map<string, string>) {
    && (forall i :: 0 <= i < |result| ==>
          var o := result[i]; IsLower(o.format) && o.format in outputs && o.content == outputs[o.format])
    && (forall i, k :: 0 <= i < k < |result| ==> result[i].format != result[k].format)
  }

  // Which formats are rendered and which are preferred: those named, up to case for the latter, or markdown.
  lemma NamedFormats(formats: seq<string>, f: string)
    ensures f in Wanted(formats) <==>
            if exists v :: v in formats && v != "" then f in formats && f != "" else f == "markdown"
    ensures f in Preferred(formats) <==>
            if exists v :: v in formats && v != "" then f != "" && exists v :: v in formats && Lower(v) == f
            else f == "markdown"
  {
    var lower := Mapped(Lower, formats);
    FirstOccurrencesExact(formats, "");
    FirstOccurrencesExact(lower, "");
    forall v
      ensures v in lower <==> exists w :: w in formats && Lower(w) == v
    {
      if w :| w in formats && Lower(w) == v {
        var i :| 0 <= i < |formats| && formats[i] == w;
        assert lower[i] == v;
      }
    }
    if v :| v in formats && v != "" {
      assert v in FirstOccurrences(formats, "");
      assert |Lower(v)| > 0 && Lower(v) in lower;
      assert Lower(v) in FirstOccurrences(lower, "");
    } else {
      assert forall w :: w in formats ==> Lower(w) == "";
      NothingFirst(formats, "");
      NothingFirst(lower, "");
    }
  }

  // What orderedOutputs may answer, whatever the iteration order of the map: the preferred formats
  // first, in order, then the rest.
  ghost predicate Shows(outputs: map<string, string>, order: seq<string>, result: seq<Output>) {
    && Genuine(result, outputs) && Picked(order, outputs) <= result
    && (forall f :: f in outputs && IsLower(f) ==> Listed(result, f))
  }

  // The outputs gathered so far, and the formats already in the list.
  ghost predicate Gathered(outputs: map<string, string>, result: seq<Output>, seen: set<string>) {
    Genuine(result, outputs) && forall f :: f in seen <==> Listed(result, f)
  }

  // The closure `add`.
  method Add(outputs: map<string, string>, name: string, result: seq<Output>, seen: set<string>)
    returns (result': seq<Output>, seen': set<string>)
    requires Gathered(outputs, result, seen)
    ensures Gathered(outputs, result', seen')
    ensures result' == result + if Lower(name) in seen || Lower(name) !in outputs then []
                                else [Output(Lower(name), outputs[Lower(name)])]
  {
    var format := Lower(name);
    LowerIdempotent(name);
    result', seen' := result, seen;
    if format in seen {
      return;
    }
    if format !in outputs {
      return;
    }
    seen' := seen + {format};
    result' := result + [Output(format, outputs[format])];
    forall f
      ensures f in seen' <==> Listed(result', f)
    {
      if Listed(result, f) {
        var i :| 0 <= i < |result| && result[i].format == f;
        assert result'[i].format == f;
      }
      assert result'[|result|].format == format;
    }
  }

  lemma {:induction false} PickedFormats(order: seq<string>, outputs: map<string, string>, f: string)
    ensures Listed(Picked(order, outputs), f) <==> f in order && f in outputs
    decreases |order|
  {
    if order == [] {
    } else {
      var n := |order| - 1;
      PickedFormats(order[..n], outputs, f);
      var before, all := Picked(order[..n], outputs), Picked(order, outputs);
      assert order == order[..n] + [order[n]];
      if Listed(before, f) {
        var i :| 0 <= i < |before| && before[i].format == f;
        assert all[i].format == f;
      }
      if order[n] in outputs {
        assert all[|before|].format == order[n];
      }
    }
  }

  method OrderedOutputs(outputs: map<string, string>, preferred: seq<string>) returns (result: seq<Output>)
    ensures Shows(outputs, Preferred(preferred), result)
  {
    var order := EnsurePreferred(preferred);
    result := [];
    var seen: set<string> := {};
    PreferredAreLower(preferred);
    for i := 0 to |order|
      invariant Gathered(outputs, result, seen)
      invariant result == Picked(order[..i], outputs)
    {
      assert order[..i + 1][..i] == order[..i];
      PickedFormats(order[..i], outputs, order[i]);
      result, seen := Add(outputs, order[i], result, seen);
    }
    assert order[..|order|] == order;
    result := AddRest(outputs, result, seen);
  }

  // The loop over the map, in any order.
  method AddRest(outputs: map<string, string>, before: seq<Output>, shown: set<string>) returns (result: seq<Output>)
    requires Gathered(outputs, before, shown)
    ensures Genuine(result, outputs) && before <= result
    ensures forall f :: f in outputs && IsLower(f) ==> Listed(result, f)
  {
    result := before;
    var seen := shown;
    var keys := outputs.Keys;
    while keys != {}
      invariant keys <= outputs.Keys
      invariant Gathered(outputs, result, seen) && before <= result
      invariant forall f :: f in outputs && IsLower(f) && f !in keys ==> f in seen
      decreases |keys|
    {
      var format :| format in keys;
      ghost var last := result;
      ghost var had := seen;
      result, seen := Add(outputs, format, result, seen);
      StillListed(last, result);
      if IsLower(format) && format !in had {
        assert result[|last|].format == format;
      }
      keys := keys - {format};
    }
  }

  lemma StillListed(a: seq<Output>, b: seq<Output>)
    requires a <= b
    ensures forall f :: Listed(a, f) ==> Listed(b, f)
  {
  }

  lemma PreferredAreLower(preferred: seq<string>)
    ensures forall i :: 0 <= i < |Preferred(preferred)| ==> IsLower(Preferred(preferred)[i])
    ensures Distinct(Preferred(preferred))
  {
    var lower := Mapped(Lower, preferred);
    FirstOccurrencesExact(lower, "");
    forall i | 0 <= i < |Preferred(preferred)|
      ensures IsLower(Preferred(preferred)[i])
    {
      var f := Preferred(preferred)[i];
      if f in FirstOccurrences(lower, "") {
        var k :| 0 <= k < |lower| && lower[k] == f;
        LowerIdempotent(preferred[k]);
      } else {
        assert Lower(MARKDOWN) == MARKDOWN;
      }
    }
  }

  // When every output's format is preferred, the loop over the map adds nothing.
  lemma TailAddsNothing(outputs: map<string, string>, order: seq<string>, result: seq<Output>)
    requires Shows(outputs, order, result) && forall f :: f in outputs ==> f in order
    ensures result == Picked(order, outputs)
  {
    var head := Picked(order, outputs);
    if |head| < |result| {
      var f := result[|head|].format;
      PickedFormats(order, outputs, f);
    }
  }

  // ----- extractOutputs -----

  // What the route collects from a stored JSON object: keys in lower case, values that are strings.
  // Where two keys differ only in case, either may win.
  ghost predicate Lowered(fields: map<string, Json>, outputs: map<string, string>) {
    && (forall key :: key in fields && fields[key].Str? ==> Lower(key) in outputs)
    && (forall f :: f in outputs ==> exists key :: key in fields && Lower(key) == f && fields[key] == Str(outputs[f]))
  }

  method FromObject(fields: map<string, Json>) returns (outputs: map<string, string>)
    ensures Lowered(fields, outputs)
  {
    outputs := map[];
    var keys := fields.Keys;
    while keys != {}
      invariant keys <= fields.Keys
      invariant forall key :: key in fields && key !in keys && fields[key].Str? ==> Lower(key) in outputs
      invariant forall f :: f in outputs ==>
                  exists key :: key in fields && Lower(key) == f && fields[key] == Str(outputs[f])
      decreases |keys|
    {
      var key :| key in keys;
      if fields[key].Str? {
        outputs := outputs[Lower(key) := fields[key].s];
      }
      keys := keys - {key};
    }
  }

  // A string field of a JSON object, or "".
  function StringField(item: Json, name: string): string {
    if item.Obj? && name in item.fields && item.fields[name].Str? then item.fields[name].s else ""
  }

  // An older layout, a list of {format, content}: later entries win, incomplete ones are passed over.
  function FromItems(items: seq<Json>): map<string, string> {
    if items == [] then map[]
    else
      var n := |items| - 1;
      var format, content := StringField(items[n], "format"), StringField(items[n], "content");
      if format == "" || content == "" then FromItems(items[..n])
      else FromItems(items[..n])[Lower(format) := content]
  }

  // A complete entry: a format and a content that are strings and not empty.
  ghost predicate Entry(item: Json, f: string, content: string) {
    && item.Obj? && "format" in item.fields && "content" in item.fields
    && item.fields["format"].Str? && item.fields["format"].s != "" && Lower(item.fields["format"].s) == f
    && item.fields["content"] == Str(content) && content != ""
  }

  lemma LastItem(items: seq<Json>, f: string)
    requires items != []
    ensures
      var n := |items| - 1;
      var before, all := FromItems(items[..n]), FromItems(items);
      && (forall c :: Entry(items[n], f, c) ==> f in all && all[f] == c)
      && ((forall c :: !Entry(items[n], f, c)) ==> (f in all <==> f in before) && (f in all ==> all[f] == before[f]))
  {
    var n := |items| - 1;
    var format, content := StringField(items[n], "format"), StringField(items[n], "content");
    if format != "" && content != "" && Lower(format) == f {
      assert Entry(items[n], f, content);
    }
  }

  // Entry i is the last complete one for the format.
  ghost predicate LastEntry(items: seq<Json>, f: string, i: int, content: string) {
    0 <= i < |items| && Entry(items[i], f, content) && forall k, c :: i < k < |items| ==> !Entry(items[k], f, c)
  }

  // A format is there exactly when it has a complete entry, and has the content of its last one.
  lemma {:induction false} FromItemsExact(items: seq<Json>, f: string)
    ensures f in FromItems(items) <==> exists i, c :: LastEntry(items, f, i, c)
    ensures forall i, c :: LastEntry(items, f, i, c) ==> FromItems(items)[f] == c
    decreases |items|
  {
    if items == [] {
    } else {
      var n := |items| - 1;
      FromItemsExact(items[..n], f);
      LastItem(items, f);
      if c: string :| Entry(items[n], f, c) {
        assert LastEntry(items, f, n, c);
      } else {
        forall i, c
          ensures LastEntry(items, f, i, c) <==> LastEntry(items[..n], f, i, c)
        {
          EarlierEntry(items, n, f, i, c);
        }
      }
    }
  }

  lemma EarlierEntry(items: seq<Json>, n: nat, f: string, i: int, c: string)
    requires n + 1 == |items| && forall c :: !Entry(items[n], f, c)
    ensures LastEntry(items, f, i, c) <==> LastEntry(items[..n], f, i, c)
  {
    assert forall k :: 0 <= k < n ==> items[..n][k] == items[k];
  }

  method FromArray(items: seq<Json>) returns (outputs: map<string, string>)
    ensures outputs == FromItems(items)
  {
    outputs := map[];
    for i := 0 to |items|
      invariant outputs == FromItems(items[..i])
    {
      assert items[..i + 1][..i] == items[..i];
      if !items[i].Obj? {
        continue;
      }
      var format, content := StringField(items[i], "format"), StringField(items[i], "content");
      if format == "" || content == "" {
        continue;
      }
      outputs := outputs[Lower(format) := content];
    }
    assert items[..|items|] == items;
  }

  // The outputs the stored value amounts to.
  ghost predicate Collected(raw: Json, outputs: map<string, string>) {
    match raw
    case Obj(fields) => Lowered(fields, outputs)
    case Arr(items) => outputs == FromItems(items)
    case _ => outputs == map[]
  }

  function Fallback(preferred: seq<string>, content: string): seq<Output> {
    [Output(Preferred(preferred)[0], content)]
  }

  // The list is never empty: without usable stored outputs it is the fallback content, under the first
  // preferred format. The stored value itself is taken out of the metadata shown.
  method ExtractOutputs(meta: map<string, Json>, preferred: seq<string>, fallback: string)
    returns (result: seq<Output>, cleaned: map<string, Json>)
    ensures cleaned == meta - {OUTPUTS_KEY}
    ensures OUTPUTS_KEY !in meta ==> result == Fallback(preferred, fallback)
    ensures OUTPUTS_KEY in meta ==>
              exists outputs :: Collected(meta[OUTPUTS_KEY], outputs) && Answers(outputs, preferred, fallback, result)
  {
    cleaned := meta - {OUTPUTS_KEY};
    if OUTPUTS_KEY !in meta {
      var order := EnsurePreferred(preferred);
      return [Output(order[0], fallback)], cleaned;
    }
    var outputs: map<string, string>;
    match meta[OUTPUTS_KEY] {
      case Obj(fields) => outputs := FromObject(fields);
      case Arr(items) => outputs := FromArray(items);
      case _ => outputs := map[];
    }
    CollectedAreLower(meta[OUTPUTS_KEY], outputs);
    result := OrderedOutputs(outputs, preferred);
    SomethingListed(outputs, Preferred(preferred), result);
    if |result| == 0 {
      var order := EnsurePreferred(preferred);
      result := [Output(order[0], fallback)];
    }
    assert Answers(outputs, preferred, fallback, result);
  }

  // The outputs in order, or the fallback when there are none.
  ghost predicate Answers(
      outputs: map<string, string>, preferred: seq<string>, fallback: string, result: seq<Output>)
  {
    && result != []
    && if outputs == map[] then result == Fallback(preferred, fallback)
       else Shows(outputs, Preferred(preferred), result)
  }

  lemma {:induction false} FromItemsAreLower(items: seq<Json>)
    ensures forall f :: f in FromItems(items) ==> IsLower(f)
    decreases |items|
  {
    if items == [] {
    } else {
      var n := |items| - 1;
      FromItemsAreLower(items[..n]);
      LowerIdempotent(StringField(items[n], "format"));
    }
  }

  lemma CollectedAreLower(raw: Json, outputs: map<string, string>)
    requires Collected(raw, outputs)
    ensures forall f :: f in outputs ==> IsLower(f)
  {
    if raw.Obj? {
      forall f | f in outputs
        ensures IsLower(f)
      {
        var key :| key in raw.fields && Lower(key) == f;
        LowerIdempotent(key);
      }
    } else if raw.Arr? {
      FromItemsAreLower(raw.items);
    }
  }

  lemma SomethingListed(outputs: map<string, string>, order: seq<string>, result: seq<Output>)
    requires Shows(outputs, order, result) && forall f :: f in outputs ==> IsLower(f)
    ensures outputs == map[] <==> result == []
  {
    if outputs != map[] {
      var f :| f in outputs;
      assert Listed(result, f);
    }
    if result != [] {
      assert result[0].format in outputs;
    }
  }

  // ----- From request to response -----

  lemma StoredCollects(outputs: map<string, string>, collected: map<string, string>)
    requires (forall f :: f in outputs ==> IsLower(f)) && Collected(Stored(outputs), collected)
    ensures collected == outputs
  {
  }

  lemma {:induction false} PickedAll(order: seq<string>, outputs: map<string, string>)
    requires forall f :: f in order ==> f in outputs
    ensures |Picked(order, outputs)| == |order|
    ensures forall i :: 0 <= i < |order| ==> Picked(order, outputs)[i] == Output(order[i], outputs[order[i]])
    decreases |order|
  {
    if order == [] {
    } else {
      PickedAll(order[..|order| - 1], outputs);
    }
  }

  lemma NormalIsPreferred(formats: seq<string>)
    requires IsNormal(formats) && formats != []
    ensures Wanted(formats) == formats && Preferred(formats) == formats
  {
    FirstOccurrencesIdempotent(formats, "");
    assert Mapped(Lower, formats) == formats;
  }

  lemma ShownAsRendered(
      formats: seq<string>, render: Renderer, rendered: Rendered, collected: map<string, string>, shown: seq<Output>)
    requires IsNormal(formats) && formats != [] && Renders(render, formats, rendered)
    requires Collected(Stored(rendered.outputs), collected) && Shows(collected, formats, shown)
    ensures |shown| == |formats|
    ensures forall i :: 0 <= i < |formats| ==>
              render(formats[i]).Some? && shown[i] == Output(formats[i], render(formats[i]).value)
  {
    RenderedAreLower(formats, render, rendered);
    StoredCollects(rendered.outputs, collected);
    TailAddsNothing(collected, formats, shown);
    PickedAll(formats, collected);
  }

  // IN ORDER, ONCE EACH. A document rendered for the request's formats, stored as JSON and shown for the
  // formats the route reads back lists exactly those formats, in the order requested, each with the
  // content rendered for it: the loop over the map never adds anything.
  lemma OutputsAsRequested(
      list: FormatList, render: Renderer, rendered: Rendered, collected: map<string, string>, fallback: string,
      shown: seq<Output>)
    requires
      var formats := FormatsFromAny(Marshal(list), MARKDOWN);
      && Renders(render, Wanted(formats), rendered)
      && Collected(Stored(rendered.outputs), collected)
      && Answers(collected, formats, fallback, shown)
    ensures
      var formats := Values(list, MARKDOWN);
      && |shown| == |formats|
      && forall i :: 0 <= i < |formats| ==>
           render(formats[i]).Some? && shown[i] == Output(formats[i], render(formats[i]).value)
  {
    var formats := Values(list, MARKDOWN);
    StoredFormats(list, MARKDOWN);
    ValuesAreNormal(list);
    NormalIsPreferred(formats);
    RenderedAreLower(formats, render, rendered);
    StoredCollects(rendered.outputs, collected);
    SomethingRendered(render, formats, rendered);
    ShownAsRendered(formats, render, rendered, collected, shown);
  }

  lemma RenderedAreLower(formats: seq<string>, render: Renderer, rendered: Rendered)
    requires IsNormal(formats) && Renders(render, formats, rendered)
    ensures forall f :: f in rendered.outputs ==> IsLower(f)
  {
  }
}
