/** Parsing streams of JSON objects under a cap on line length and a cap on nesting. */
module Ndjson {
  import opened Prelude
  import opened Json

  const MAX_LINE_LEN: nat := 1024 * 1024
  const MAX_DEPTH: nat := 64

  function Children(v: Json): set<Json> {
    match v
    case Obj(fields) => fields.Values
    case List(elems) => set e | e in elems
    case _ => {}
  }

  function Max(s: set<nat>): (m: nat)
    requires s != {}
    ensures m in s && forall x :: x in s ==> x <= m
  {
    MaxExists(s);
    var m :| m in s && forall x :: x in s ==> x <= m;
    m
  }

  lemma {:induction false} MaxExists(s: set<nat>)
    requires s != {}
    ensures exists m :: m in s && forall x :: x in s ==> x <= m
  {
    var a: nat :| a in s;
    var rest := s - {a};
    if rest == {} {
      assert forall x :: x in s ==> x in rest || x == a;
      assert a in s && forall x :: x in s ==> x <= a;
    } else {
      MaxExists(rest);
      var m :| m in rest && forall x :: x in rest ==> x <= m;
      var n := if a > m then a else m;
      forall x | x in s ensures x <= n { assert x == a || x in rest; }
      assert n in s;
    }
  }

  /** `_max_depth`: it stops descending once it is past the cap. */
  function MaxDepth(v: Json, current: nat): (d: nat)
    decreases MAX_DEPTH + 1 - current
  {
    if current > MAX_DEPTH || Children(v) == {} then current
    else
      var depths := set c | c in Children(v) :: MaxDepth(c, current + 1);
      var some :| some in Children(v);
      assert MaxDepth(some, current + 1) in depths;
      Max(depths)
  }

  /** Some path leads down through `n` containers, each holding the next. */
  ghost predicate Nested(v: Json, n: nat) { n == 0 || exists c :: c in Children(v) && Nested(c, n - 1) }

  /** The computed depth is the true depth, or 65 when that is smaller. */
  lemma {:induction false} MaxDepthExact(v: Json, current: nat, n: nat)
    requires current <= n <= MAX_DEPTH + 1
    ensures current <= MaxDepth(v, current) <= MAX_DEPTH + 1
    ensures n <= MaxDepth(v, current) <==> Nested(v, n - current)
    decreases MAX_DEPTH + 1 - current
  {
    if current <= MAX_DEPTH && Children(v) != {} {
      var depths := set c | c in Children(v) :: MaxDepth(c, current + 1);
      var d := MaxDepth(v, current);
      forall c | c in Children(v)
        ensures current + 1 <= MaxDepth(c, current + 1) <= MAX_DEPTH + 1
        ensures MaxDepth(c, current + 1) <= d
        ensures n > current ==> (n <= MaxDepth(c, current + 1) <==> Nested(c, n - current - 1))
      {
        MaxDepthExact(c, current + 1, if n > current then n else current + 1);
        assert MaxDepth(c, current + 1) in depths;
      }
      assert d in depths;
      var deepest :| deepest in Children(v) && MaxDepth(deepest, current + 1) == d;
    }
  }

  /** What the JSON decoder makes of a text; `Raises` is any failure that is not a syntax error. */
  datatype Decoded = Value(value: Json) | Malformed | Raises

  datatype Loaded = Loaded(value: Json) | TooLarge | TooDeep | Failed

  function BoundedJsonLoads(text: string, parse: string -> Decoded, maxBytes: nat, maxDepth: nat): Loaded {
    if |text| > maxBytes then TooLarge
    else
      match parse(text)
      case Malformed => Failed
      case Raises => Failed
      case Value(v) => if MaxDepth(v, 0) > maxDepth then TooDeep else Loaded(v)
  }

  /** The containers' children: the values of an object and the elements of a list. */
  lemma ChildrenExact(v: Json, c: Json)
    ensures c in Children(v) <==>
      || (v.Obj? && exists k :: k in v.fields && v.fields[k] == c)
      || (v.List? && exists i :: 0 <= i < |v.elems| && v.elems[i] == c)
  {
  }

  /** Up to 64, a text is loaded exactly when it is no larger than allowed and decodes to a value no deeper. */
  lemma LoadedIff(text: string, parse: string -> Decoded, maxBytes: nat, maxDepth: nat)
    requires maxDepth <= MAX_DEPTH
    ensures var r := BoundedJsonLoads(text, parse, maxBytes, maxDepth);
      && (r.TooLarge? <==> |text| > maxBytes)
      && (r.Loaded? <==> |text| <= maxBytes && parse(text).Value? && !Nested(parse(text).value, maxDepth + 1))
      && (r.TooDeep? <==> |text| <= maxBytes && parse(text).Value? && Nested(parse(text).value, maxDepth + 1))
      && (r.Loaded? ==> parse(text) == Value(r.value))
  {
    if parse(text).Value? { MaxDepthExact(parse(text).value, 0, maxDepth + 1); }
  }

  /** With this decoder, nothing nested deeper than the limit is loaded. */
  ghost predicate DepthEnforced(parse: string -> Decoded, maxDepth: nat) {
    forall text, maxBytes :: BoundedJsonLoads(text, parse, maxBytes, maxDepth).Loaded? ==>
      !Nested(BoundedJsonLoads(text, parse, maxBytes, maxDepth).value, maxDepth + 1)
  }

  /** Some text decodes to something nested deeper than the limit. */
  ghost predicate DecodesDeeper(parse: string -> Decoded, maxDepth: nat) {
    exists text :: parse(text).Value? && Nested(parse(text).value, maxDepth + 1)
  }

  /** Past 64 the check is without effect: nothing is ever too deep. */
  lemma NeverTooDeep(text: string, parse: string -> Decoded, maxBytes: nat, maxDepth: nat)
    requires maxDepth > MAX_DEPTH
    ensures !BoundedJsonLoads(text, parse, maxBytes, maxDepth).TooDeep?
  {
    if parse(text).Value? { MaxDepthExact(parse(text).value, 0, 0); }
  }

  /** Under a limit above 64 every document of admissible size is loaded, however deep it is nested. */
  lemma LargeLimitMissed(text: string, parse: string -> Decoded, maxBytes: nat, maxDepth: nat, v: Json)
    requires maxDepth > MAX_DEPTH && |text| <= maxBytes && parse(text) == Value(v) && Nested(v, maxDepth + 1)
    ensures BoundedJsonLoads(text, parse, maxBytes, maxDepth) == Loaded(v)
  {
    NeverTooDeep(text, parse, maxBytes, maxDepth);
  }

  /**
   * For every decoder, the caller's limit holds for every document if and only if it is at most 64
   * or the decoder never yields anything deeper in the first place.
   */
  lemma DepthEnforcedIff(parse: string -> Decoded, maxDepth: nat)
    ensures DepthEnforced(parse, maxDepth) <==> maxDepth <= MAX_DEPTH || !DecodesDeeper(parse, maxDepth)
  {
    if maxDepth <= MAX_DEPTH {
      forall text, maxBytes | BoundedJsonLoads(text, parse, maxBytes, maxDepth).Loaded?
        ensures !Nested(BoundedJsonLoads(text, parse, maxBytes, maxDepth).value, maxDepth + 1)
      {
        MaxDepthExact(parse(text).value, 0, maxDepth + 1);
      }
    } else if DecodesDeeper(parse, maxDepth) {
      var text :| parse(text).Value? && Nested(parse(text).value, maxDepth + 1);
      LargeLimitMissed(text, parse, |text|, maxDepth, parse(text).value);
    }
  }

  // ----- streams -----

  /** A line that is not blank becomes an event when it is short, well-formed, an object and not too deep. */
  function EventOf(line: string, parse: string -> Decoded): Option<Json> {
    if |line| > MAX_LINE_LEN || !parse(line).Value? then None
    else
      var v := parse(line).value;
      if v.Obj? && MaxDepth(v, 0) <= MAX_DEPTH then Some(v) else None
  }

  /** Exactly then: at most a mebibyte, a JSON object, and no path down through more than 64 containers. */
  lemma EventIff(line: string, parse: string -> Decoded)
    ensures EventOf(line, parse).Some? <==>
      |line| <= 1_048_576 && parse(line).Value? && parse(line).value.Obj? && !Nested(parse(line).value, 65)
    ensures EventOf(line, parse).Some? ==> parse(line) == Value(EventOf(line, parse).value)
  {
    if parse(line).Value? { MaxDepthExact(parse(line).value, 0, MAX_DEPTH + 1); }
  }

  function Events(lines: seq<string>, parse: string -> Decoded): seq<Json> {
    if lines == [] then []
    else
      var line := lines[|lines| - 1];
      Events(lines[..|lines| - 1], parse)
        + if line != "" && EventOf(line, parse).Some? then [EventOf(line, parse).value] else []
  }

  /** The decoder is asked for the line and fails in a way that the loop does not catch. */
  predicate Escapes(line: string, parse: string -> Decoded) {
    line != "" && |line| <= MAX_LINE_LEN && parse(line).Raises?
  }

  lemma EventsAppend(lines: seq<string>, line: string, parse: string -> Decoded)
    ensures Events(lines + [line], parse) ==
      Events(lines, parse) + if line != "" && EventOf(line, parse).Some? then [EventOf(line, parse).value] else []
  {
    assert (lines + [line])[..|lines|] == lines;
  }

  /** The loop body for a line that is not blank. */
  method ParseLine(line: string, parse: string -> Decoded) returns (escapes: bool, event: Option<Json>)
    requires line != ""
    ensures escapes <==> Escapes(line, parse)
    ensures !escapes ==> event == EventOf(line, parse)
  {
    if |line| > MAX_LINE_LEN { return false, None; }
    var parsed := parse(line);
    if parsed.Raises? { return true, None; }
    if parsed.Malformed? { return false, None; }
    if !parsed.value.Obj? { return false, None; }
    if MaxDepth(parsed.value, 0) > MAX_DEPTH { return false, None; }
    return false, Some(parsed.value);
  }

  predicate NotBlank(line: string) { line != "" }

  ghost predicate AllBounded(events: seq<Json>) { forall e :: e in events ==> e.Obj? && !Nested(e, MAX_DEPTH + 1) }

  /**
   * `lines` are the stream's lines, stripped. The call raises exactly when some line makes the decoder
   * fail otherwise than by syntax.
   */
  method ParseNdjson(lines: seq<string>, parse: string -> Decoded)
      returns (raised: bool, events: seq<Json>, skipped: nat)
    ensures raised <==> exists i :: 0 <= i < |lines| && Escapes(lines[i], parse)
    ensures !raised ==> events == Events(lines, parse)
    ensures AllBounded(events)
    ensures !raised ==> |events| + skipped == CountIf(lines, NotBlank)
  {
    raised, events, skipped := false, [], 0;
    for i := 0 to |lines|
      invariant !raised && forall j :: 0 <= j < i ==> !Escapes(lines[j], parse)
      invariant events == Events(lines[..i], parse)
      invariant |events| + skipped == CountIf(lines[..i], NotBlank)
    {
      var line := lines[i];
      assert lines[..i + 1] == lines[..i] + [line];
      EventsAppend(lines[..i], line, parse);
      CountIfAppend(lines[..i], line, NotBlank);
      if line != "" {
        var escapes, event := ParseLine(line, parse);
        if escapes { return true, [], 0; }
        if event.Some? { events := events + [event.value]; } else { skipped := skipped + 1; }
      }
    }
    assert lines[..|lines|] == lines;
    EventsBounded(lines, parse);
  }

  /** Every event is an object that nests at most 64 deep. */
  lemma {:induction false} EventsBounded(lines: seq<string>, parse: string -> Decoded)
    ensures AllBounded(Events(lines, parse))
  {
    if lines != [] {
      var line := lines[|lines| - 1];
      EventsBounded(lines[..|lines| - 1], parse);
      if line != "" && EventOf(line, parse).Some? { MaxDepthExact(EventOf(line, parse).value, 0, MAX_DEPTH + 1); }
    }
  }
}
