/** Post-processing of the language model's reply in the suggestion
    extractor: strip the markdown fence, decode the JSON array, keep the
    objects that carry a suggestion, stamp them with generic metadata, and
    drop repeated suggestions, the first occurrence winning. The JSON
    decoder and the clock are parameters. */
module Suggestions {
  import opened Text

  /** A decoded JSON value. Numbers are kept as integers; objects keep
      their members in insertion order, as a Python dict does. */
  datatype Json =
    | Null
    | Bool(b: bool)
    | Num(n: int)
    | Str(s: string)
    | Arr(items: seq<Json>)
    | Obj(fields: seq<(string, Json)>)

  /** The uncaught exceptions the post-processing can raise: iterating over
      a decoded number, boolean or null, and lower-casing a suggestion that
      is not a string. */
  datatype Failure = NotIterable | NotAString

  // ---------------------------------------------------------------------
  // Markdown fences
  // ---------------------------------------------------------------------

  const OpenFence: string := "```json"
  const CloseFence: string := "```"

  predicate StartsWith(s: string, p: string) {
    |p| <= |s| && s[..|p|] == p
  }

  predicate EndsWith(s: string, p: string) {
    |p| <= |s| && s[|s| - |p|..] == p
  }

  /** Remove a leading "```json" and strip, then remove a trailing "```"
      and strip; each step only when its fence is there. */
  function StripFences(raw: string): string {
    var a := if StartsWith(raw, OpenFence) then Strip(raw[|OpenFence|..]) else raw;
    if EndsWith(a, CloseFence) then Strip(a[..|a| - |CloseFence|]) else a
  }

  /** lstrip is not disturbed by text after the first non-space character. */
  lemma {:induction false} StripLeftAppend(u: string, v: string)
    requires v != [] && !IsSpace(v[0])
    ensures StripLeft(u + v) == StripLeft(u) + v
  {
    if u != [] {
      assert (u + v)[0] == u[0];
      if IsSpace(u[0]) {
        assert (u + v)[1..] == u[1..] + v;
        StripLeftAppend(u[1..], v);
      }
    } else {
      assert u + v == v;
    }
  }

  /** Stripping a text that ends in the closing fence only strips its
      front. */
  lemma {:induction false} StripFencedBody(body: string)
    ensures Strip(body + CloseFence) == StripLeft(body) + CloseFence
  {
    var l := StripLeft(body);
    StripLeftAppend(body, CloseFence);
    assert (l + CloseFence)[|l + CloseFence| - 1] == '`';
  }

  /** Stripping after lstrip is stripping. */
  lemma {:induction false} StripAfterStripLeft(s: string)
    ensures Strip(StripLeft(s)) == Strip(s)
  {
    var l := StripLeft(s);
    StripLeftShape(s);
    assert StripLeft(l) == l;
  }

  /** A fenced reply comes back as its stripped body. */
  lemma {:induction false} FenceRoundTrip(body: string)
    ensures StripFences(OpenFence + body + CloseFence) == Strip(body)
  {
    var raw := OpenFence + body + CloseFence;
    assert StartsWith(raw, OpenFence);
    assert raw[|OpenFence|..] == body + CloseFence;
    var l := StripLeft(body);
    StripFencedBody(body);
    var a := l + CloseFence;
    assert EndsWith(a, CloseFence);
    assert a[..|a| - |CloseFence|] == l;
    StripAfterStripLeft(body);
  }

  /** A reply without either fence is left exactly as it is, unstripped. */
  lemma {:induction false} FencesAbsent(raw: string)
    requires !StartsWith(raw, OpenFence) && !EndsWith(raw, CloseFence)
    ensures StripFences(raw) == raw
  {
  }

  // ---------------------------------------------------------------------
  // Objects as insertion-ordered dicts
  // ---------------------------------------------------------------------

  /** d.get(k): the value of the first member named k. */
  function Lookup(fields: seq<(string, Json)>, k: string): Option<Json>
    decreases |fields|
  {
    if fields == [] then None
    else if fields[0].0 == k then Some(fields[0].1)
    else Lookup(fields[1..], k)
  }

  /** d[k] = v: an existing member keeps its place and takes the new value;
      a new member goes at the end. */
  function Put(fields: seq<(string, Json)>, k: string, v: Json): (r: seq<(string, Json)>)
    decreases |fields|
  {
    if fields == [] then [(k, v)]
    else if fields[0].0 == k then [(k, v)] + fields[1..]
    else [fields[0]] + Put(fields[1..], k, v)
  }

  /** After d[k] = v, d[k] is v and every other member reads as before. */
  lemma {:induction false} PutLookup(fields: seq<(string, Json)>, k: string, v: Json, k': string)
    ensures Lookup(Put(fields, k, v), k') == if k' == k then Some(v) else Lookup(fields, k')
    decreases |fields|
  {
    if fields != [] && fields[0].0 != k {
      PutLookup(fields[1..], k, v, k');
    }
  }

  // ---------------------------------------------------------------------
  // Filtering and stamping
  // ---------------------------------------------------------------------

  /** What `for suggestion in suggestions` iterates over: the items of an
      array, the keys of an object, the characters of a string. */
  function Elements(j: Json): Result<seq<Json>, Failure> {
    match j
    case Arr(items) => Ok(items)
    case Obj(fields) => Ok(seq(|fields|, i requires 0 <= i < |fields| => Str(fields[i].0)))
    case Str(s) => Ok(seq(|s|, i requires 0 <= i < |s| => Str([s[i]])))
    case _ => Err(NotIterable)
  }

  /** isinstance(x, dict) and 'suggestion' in x. */
  predicate IsSuggestion(x: Json) {
    x.Obj? && Lookup(x.fields, "suggestion").Some?
  }

  const SourceLabel: string := "Combined Data Sources"
  const FileTypeLabel: string := "mixed"

  /** The three metadata assignments. */
  function Stamp(x: Json, timestamp: string): Json
    requires x.Obj?
  {
    Obj(Put(Put(Put(x.fields, "extracted_at", Str(timestamp)), "source", Str(SourceLabel)),
            "file_type", Str(FileTypeLabel)))
  }

  /** The stamped suggestion objects, in input order. */
  function Kept(elements: seq<Json>, timestamp: string): seq<Json>
    decreases |elements|
  {
    if elements == [] then []
    else
      var x := elements[|elements| - 1];
      Kept(elements[..|elements| - 1], timestamp) + (if IsSuggestion(x) then [Stamp(x, timestamp)] else [])
  }

  /** A stamped object: its suggestion untouched, and the three metadata
      members set. */
  predicate StampedWith(x: Json, timestamp: string) {
    x.Obj? && Lookup(x.fields, "suggestion").Some? &&
    Lookup(x.fields, "extracted_at") == Some(Str(timestamp)) &&
    Lookup(x.fields, "source") == Some(Str(SourceLabel)) &&
    Lookup(x.fields, "file_type") == Some(Str(FileTypeLabel))
  }

  /** Stamping sets the three metadata members and changes no other. */
  lemma {:induction false} StampShape(x: Json, timestamp: string)
    requires IsSuggestion(x)
    ensures StampedWith(Stamp(x, timestamp), timestamp)
    ensures forall k :: k != "extracted_at" && k != "source" && k != "file_type" ==>
      Lookup(Stamp(x, timestamp).fields, k) == Lookup(x.fields, k)
  {
    StampLookup(x, timestamp, "suggestion");
    StampLookup(x, timestamp, "extracted_at");
    StampLookup(x, timestamp, "source");
    StampLookup(x, timestamp, "file_type");
    forall k | k != "extracted_at" && k != "source" && k != "file_type"
      ensures Lookup(Stamp(x, timestamp).fields, k) == Lookup(x.fields, k)
    {
      StampLookup(x, timestamp, k);
    }
  }

  /** What a stamped object holds under the key k. */
  lemma {:induction false} StampLookup(x: Json, timestamp: string, k: string)
    requires x.Obj?
    ensures Lookup(Stamp(x, timestamp).fields, k) ==
      if k == "file_type" then Some(Str(FileTypeLabel))
      else if k == "source" then Some(Str(SourceLabel))
      else if k == "extracted_at" then Some(Str(timestamp))
      else Lookup(x.fields, k)
  {
    var f1 := Put(x.fields, "extracted_at", Str(timestamp));
    var f2 := Put(f1, "source", Str(SourceLabel));
    PutLookup(f2, "file_type", Str(FileTypeLabel), k);
    PutLookup(f1, "source", Str(SourceLabel), k);
    PutLookup(x.fields, "extracted_at", Str(timestamp), k);
  }

  /** Exactly the suggestion objects are kept, each stamped, in order, and
      never more than were parsed. */
  lemma {:induction false} KeptIsStampedFilter(elements: seq<Json>, timestamp: string)
    ensures |Kept(elements, timestamp)| <= |elements|
    ensures forall y :: y in Kept(elements, timestamp) ==>
      StampedWith(y, timestamp) && exists x :: x in elements && IsSuggestion(x) && y == Stamp(x, timestamp)
    ensures forall x :: x in elements && IsSuggestion(x) ==> Stamp(x, timestamp) in Kept(elements, timestamp)
    decreases |elements|
  {
    if elements != [] {
      var init, x := elements[..|elements| - 1], elements[|elements| - 1];
      KeptIsStampedFilter(init, timestamp);
      assert forall e :: e in init ==> e in elements;
      assert elements == init + [x];
      if IsSuggestion(x) {
        StampShape(x, timestamp);
      }
    }
  }

  // ---------------------------------------------------------------------
  // Deduplication
  // ---------------------------------------------------------------------

  /** The suggestion text is a string, so that .lower() applies. */
  predicate HasTextKey(x: Json) {
    x.Obj? && Lookup(x.fields, "suggestion").Some? && Lookup(x.fields, "suggestion").value.Str?
  }

  /** s.get('suggestion', '').lower().strip(), for a suggestion that is a
      string. */
  function Key(x: Json): string {
    if HasTextKey(x) then Strip(Lower(Lookup(x.fields, "suggestion").value.s)) else []
  }

  /** The keys of a list of objects: the seen-dict of the loop. */
  function KeysOf(items: seq<Json>, key: Json -> string): set<string>
    decreases |items|
  {
    if items == [] then {} else KeysOf(items[..|items| - 1], key) + {key(items[|items| - 1])}
  }

  lemma {:induction false} KeysOfAt(items: seq<Json>, i: nat, key: Json -> string)
    requires i < |items|
    ensures key(items[i]) in KeysOf(items, key)
    decreases |items|
  {
    if i < |items| - 1 {
      KeysOfAt(items[..|items| - 1], i, key);
    }
  }

  lemma {:induction false} KeysOfAppend(items: seq<Json>, x: Json, key: Json -> string)
    ensures KeysOf(items + [x], key) == KeysOf(items, key) + {key(x)}
  {
    assert (items + [x])[..|items|] == items;
  }

  /** The first object of each non-empty key, in order. */
  function Dedup(items: seq<Json>, key: Json -> string): seq<Json>
    decreases |items|
  {
    if items == [] then []
    else
      var out := Dedup(items[..|items| - 1], key);
      var x := items[|items| - 1];
      if key(x) != [] && key(x) !in KeysOf(out, key) then out + [x] else out
  }

  /** Keys in the output are non-empty and pairwise different. */
  predicate DistinctKeys(out: seq<Json>, key: Json -> string) {
    (forall i :: 0 <= i < |out| ==> key(out[i]) != []) &&
    forall i, j :: 0 <= i < j < |out| ==> key(out[i]) != key(out[j])
  }

  lemma {:induction false} DedupDistinct(items: seq<Json>, key: Json -> string)
    ensures DistinctKeys(Dedup(items, key), key)
    decreases |items|
  {
    if items != [] {
      var init := items[..|items| - 1];
      DedupDistinct(init, key);
      var out := Dedup(init, key);
      var x := items[|items| - 1];
      if key(x) != [] && key(x) !in KeysOf(out, key) {
        var out' := out + [x];
        forall i, j | 0 <= i < j < |out'| ensures key(out'[i]) != key(out'[j]) {
          if j == |out| {
            KeysOfAt(out, i, key);
          } else {
            assert out'[i] == out[i] && out'[j] == out[j];
          }
        }
      }
    }
  }

  /** Every non-empty key of the input is the key of some output object. */
  lemma {:induction false} DedupComplete(items: seq<Json>, key: Json -> string)
    ensures forall i :: 0 <= i < |items| && key(items[i]) != [] ==> key(items[i]) in KeysOf(Dedup(items, key), key)
    decreases |items|
  {
    if items != [] {
      var n := |items| - 1;
      var init, x := items[..n], items[n];
      DedupComplete(init, key);
      var out := Dedup(init, key);
      KeysOfAppend(out, x, key);
      forall i | 0 <= i < n ensures items[i] == init[i] {
      }
    }
  }

  /** out is the sequence of first occurrences of items: idx[k] is the
      position of out[k] in items, the positions increase, and no earlier
      item has the same key. */
  ghost predicate FirstOccurrences(items: seq<Json>, key: Json -> string, out: seq<Json>, idx: seq<nat>) {
    |idx| == |out| &&
    (forall k :: 0 <= k < |idx| ==> idx[k] < |items| && items[idx[k]] == out[k]) &&
    (forall k, l :: 0 <= k < l < |idx| ==> idx[k] < idx[l]) &&
    (forall k, j :: 0 <= k < |idx| && 0 <= j < idx[k] ==> key(items[j]) != key(out[k]))
  }

  /** The output is the input's first occurrences. */
  lemma {:induction false} DedupFirstOccurrences(items: seq<Json>, key: Json -> string) returns (idx: seq<nat>)
    ensures FirstOccurrences(items, key, Dedup(items, key), idx)
    decreases |items|
  {
    if items == [] {
      idx := [];
    } else {
      var n := |items| - 1;
      var init, x := items[..n], items[n];
      var idx0 := DedupFirstOccurrences(init, key);
      var out := Dedup(init, key);
      assert items == init + [x];
      if key(x) != [] && key(x) !in KeysOf(out, key) {
        idx := idx0 + [n];
        assert Dedup(items, key) == out + [x];
        DedupComplete(init, key);
        FirstOccurrencesAdd(init, x, key, out, idx0);
      } else {
        idx := idx0;
        FirstOccurrencesSkip(init, x, key, out, idx0);
      }
    }
  }

  /** An item that is not kept leaves the first occurrences as they are. */
  lemma {:induction false} FirstOccurrencesSkip(init: seq<Json>, x: Json, key: Json -> string, out: seq<Json>, idx: seq<nat>)
    requires FirstOccurrences(init, key, out, idx)
    ensures FirstOccurrences(init + [x], key, out, idx)
  {
    var items := init + [x];
    assert forall j :: 0 <= j < |init| ==> items[j] == init[j];
  }

  /** An item whose key is new is a first occurrence. */
  lemma {:induction false} FirstOccurrencesAdd(init: seq<Json>, x: Json, key: Json -> string, out: seq<Json>, idx: seq<nat>)
    requires FirstOccurrences(init, key, out, idx)
    requires key(x) != [] && key(x) !in KeysOf(out, key)
    requires forall i :: 0 <= i < |init| && key(init[i]) != [] ==> key(init[i]) in KeysOf(out, key)
    ensures FirstOccurrences(init + [x], key, out + [x], idx + [|init|])
  {
    var items, out', idx' := init + [x], out + [x], idx + [|init|];
    assert forall j :: 0 <= j < |init| ==> items[j] == init[j];
    forall k | 0 <= k < |idx'| ensures idx'[k] < |items| && items[idx'[k]] == out'[k] {
      if k < |idx| {
        assert out'[k] == out[k];
      }
    }
    forall k, j | 0 <= k < |idx'| && 0 <= j < idx'[k] ensures key(items[j]) != key(out'[k]) {
      if k < |idx| {
        assert out'[k] == out[k];
      }
    }
  }

  /** The output is never longer than the input. */
  lemma {:induction false} DedupShorter(items: seq<Json>, key: Json -> string)
    ensures |Dedup(items, key)| <= |items|
    decreases |items|
  {
    if items != [] {
      DedupShorter(items[..|items| - 1], key);
    }
  }

  // ---------------------------------------------------------------------
  // The whole post-processing
  // ---------------------------------------------------------------------

  /** Every kept object has a string suggestion. */
  predicate AllTextKeys(kept: seq<Json>) {
    forall i :: 0 <= i < |kept| ==> HasTextKey(kept[i])
  }

  /** The result for the parsed elements: the deduplicated stamped
      suggestion objects, or the exception of the first suggestion that is
      not a string. */
  function ProcessElements(elements: seq<Json>, timestamp: string): Result<seq<Json>, Failure> {
    var kept := Kept(elements, timestamp);
    if AllTextKeys(kept) then Ok(Dedup(kept, Key)) else Err(NotAString)
  }

  /** What _process_llm_response returns, or the exception it raises. */
  function ProcessSpec(raw: string, decode: string -> Option<Json>, timestamp: string): Result<seq<Json>, Failure> {
    match decode(StripFences(raw))
    case None => Ok([])
    case Some(j) =>
      match Elements(j)
      case Err(e) => Err(e)
      case Ok(elements) => ProcessElements(elements, timestamp)
  }

  /** _process_llm_response: strip the fences, decode, keep and stamp the
      suggestion objects, then deduplicate with a dict of seen keys. */
  method ProcessLlmResponse(raw: string, decode: string -> Option<Json>, timestamp: string)
    returns (r: Result<seq<Json>, Failure>)
    ensures r == ProcessSpec(raw, decode, timestamp)
  {
    var content := RemoveFences(raw);
    var decoded := decode(content);
    if decoded.None? {
      return Ok([]);
    }
    var iterated := Elements(decoded.value);
    if iterated.Err? {
      return Err(iterated.error);
    }
    var withMetadata := StampSuggestions(iterated.value, timestamp);
    r := Deduplicate(withMetadata);
  }

  /** The two fence removals of _process_llm_response. */
  method RemoveFences(raw: string) returns (content: string)
    ensures content == StripFences(raw)
  {
    content := raw;
    if StartsWith(content, OpenFence) {
      content := Strip(content[|OpenFence|..]);
    }
    ghost var unfenced := content;
    if EndsWith(content, CloseFence) {
      content := Strip(content[..|content| - |CloseFence|]);
    }
    FenceSteps(raw, unfenced, content);
  }

  lemma {:induction false} FenceSteps(raw: string, a: string, c: string)
    requires a == if StartsWith(raw, OpenFence) then Strip(raw[|OpenFence|..]) else raw
    requires c == if EndsWith(a, CloseFence) then Strip(a[..|a| - |CloseFence|]) else a
    ensures c == StripFences(raw)
  {
  }

  /** The filtering loop: each suggestion object is stamped and kept. */
  method StampSuggestions(suggestions: seq<Json>, timestamp: string) returns (withMetadata: seq<Json>)
    ensures withMetadata == Kept(suggestions, timestamp)
  {
    withMetadata := [];
    for i := 0 to |suggestions|
      invariant withMetadata == Kept(suggestions[..i], timestamp)
    {
      assert suggestions[..i + 1][..i] == suggestions[..i];
      var suggestion := suggestions[i];
      if IsSuggestion(suggestion) {
        withMetadata := withMetadata + [Stamp(suggestion, timestamp)];
      }
    }
    assert suggestions[..|suggestions|] == suggestions;
  }

  /** The deduplication loop, with the dict of seen keys. */
  method Deduplicate(withMetadata: seq<Json>) returns (r: Result<seq<Json>, Failure>)
    ensures r == if AllTextKeys(withMetadata) then Ok(Dedup(withMetadata, Key)) else Err(NotAString)
  {
    var seen: map<string, bool> := map[];
    var unique: seq<Json> := [];
    for i := 0 to |withMetadata|
      invariant unique == Dedup(withMetadata[..i], Key)
      invariant seen.Keys == KeysOf(unique, Key)
      invariant AllTextKeys(withMetadata[..i])
    {
      DedupStep(withMetadata, i, Key);
      var s := withMetadata[i];
      if !HasTextKey(s) {
        assert !HasTextKey(withMetadata[i]);
        return Err(NotAString);
      }
      var text := Key(s);
      if text != [] && text !in seen {
        KeysOfAppend(unique, s, Key);
        seen := seen[text := true];
        unique := unique + [s];
      }
    }
    assert withMetadata[..|withMetadata|] == withMetadata;
    r := Ok(unique);
  }

  /** One more object for the deduplication loop. */
  lemma {:induction false} DedupStep(items: seq<Json>, i: nat, key: Json -> string)
    requires i < |items|
    ensures Dedup(items[..i + 1], key) ==
      var out := Dedup(items[..i], key);
      if key(items[i]) != [] && key(items[i]) !in KeysOf(out, key) then out + [items[i]] else out
    ensures AllTextKeys(items[..i + 1]) <==> AllTextKeys(items[..i]) && HasTextKey(items[i])
  {
    assert items[..i + 1][..i] == items[..i];
    assert items[..i + 1] == items[..i] + [items[i]];
  }

  /** A reply the decoder rejects gives no suggestions. */
  lemma {:induction false} DecodeFailureGivesNothing(raw: string, decode: string -> Option<Json>, timestamp: string)
    requires decode(StripFences(raw)).None?
    ensures ProcessSpec(raw, decode, timestamp) == Ok([])
  {
  }

  /** Every returned suggestion is a stamped suggestion object with a
      non-empty key no other returned suggestion shares, and there are no
      more of them than elements were parsed. */
  lemma {:induction false} ProcessOutput(raw: string, decode: string -> Option<Json>, timestamp: string)
    requires ProcessSpec(raw, decode, timestamp).Ok?
    ensures var out := ProcessSpec(raw, decode, timestamp).value;
      DistinctKeys(out, Key) && (forall y :: y in out ==> StampedWith(y, timestamp)) &&
      match decode(StripFences(raw))
      case None => out == []
      case Some(j) => Elements(j).Ok? && |out| <= |Elements(j).value|
  {
    var d := decode(StripFences(raw));
    if d.Some? {
      var elements := Elements(d.value).value;
      var kept := Kept(elements, timestamp);
      KeptIsStampedFilter(elements, timestamp);
      DedupDistinct(kept, Key);
      DedupShorter(kept, Key);
      DedupSubset(kept, Key);
    }
  }

  lemma {:induction false} DedupSubset(items: seq<Json>, key: Json -> string)
    ensures forall y :: y in Dedup(items, key) ==> y in items
    decreases |items|
  {
    if items != [] {
      var init := items[..|items| - 1];
      DedupSubset(init, key);
      assert forall y :: y in init ==> y in items;
    }
  }
}
