/** What every adapter makes of one turn. */
module TurnOutput {
  import opened Prelude
  import opened Json
  import opened ErrorTypes
  import Markdown

  /** A tool call as it stands when the turn is over. */
  datatype Call = Call(name: string, id: string, args: Json, result: Option<Json>)

  /** What an agent asks a tool for. */
  datatype Request = Request(name: string, id: string, args: Json)

  function CallOf(r: Request): Call { Call(r.name, r.id, r.args, None) }

  datatype Output = Output(reply: string, calls: seq<Call>, sequence: seq<string>,
    hasReply: bool, hasError: bool, errorType: Option<string>)

  /** `bool(s.strip())`. */
  predicate NonBlank(s: string) { exists c :: c in s && !Markdown.IsSpace(c) }

  function Names(calls: seq<Call>): (r: seq<string>)
    ensures |r| == |calls| && forall i :: 0 <= i < |r| ==> r[i] == calls[i].name
  {
    seq(|calls|, i requires 0 <= i < |calls| => calls[i].name)
  }

  function NonBlankParts(parts: seq<string>): seq<string> {
    if parts == [] then [] else (if NonBlank(parts[0]) then [parts[0]] else []) + NonBlankParts(parts[1..])
  }

  /** Only blank parts are left out. */
  lemma {:induction false} NonBlankPartsExact(parts: seq<string>, part: string)
    ensures Subsequence(NonBlankParts(parts), parts)
    ensures multiset(NonBlankParts(parts))[part] == if NonBlank(part) then multiset(parts)[part] else 0
  {
    if parts != [] {
      var first, rest := parts[0], parts[1..];
      assert parts == [first] + rest;
      NonBlankPartsExact(rest, part);
      if NonBlank(first) {
        SubsequenceKeep(NonBlankParts(rest), first, rest);
      } else {
        SubsequenceSkip(NonBlankParts(rest), first, rest);
        assert [] + NonBlankParts(rest) == NonBlankParts(rest);
      }
    }
  }

  /** What is promised of every turn, whatever the agent wrote. */
  predicate Sound(o: Output) {
    && (o.hasError ==> o.errorType.Some? && o.errorType.value in ERROR_TYPES)
    && o.sequence == Names(o.calls)
    && (o.hasReply <==> NonBlank(o.reply))
  }

  function ErrorIn(raw: string, lower: string -> string): bool { Contains(lower(raw), "error") }

  lemma ErrorInIff(raw: string, lower: string -> string)
    ensures ErrorIn(raw, lower) <==> exists i: nat :: i <= |lower(raw)| && "error" <= lower(raw)[i..]
  {
    ContainsIff(lower(raw), "error");
    if i: nat :| i <= |lower(raw)| && "error" <= lower(raw)[i..] { assert OccursAt(lower(raw), "error", i); }
    if i: nat :| OccursAt(lower(raw), "error", i) { assert "error" <= lower(raw)[i..]; }
  }

  /** `normalize_error_type(...) or UNKNOWN`. */
  function Classified(kind: Option<string>, texts: seq<Option<string>>, lower: string -> string): (t: string)
    ensures t in ERROR_TYPES
    ensures kind.Some? && kind.value in ERROR_TYPES ==> t == kind.value
  {
    NormalizedToken(kind, texts, lower);
    var t := NormalizeErrorType(kind, texts, lower);
    if t.Some? && t.value != "" then t.value else UNKNOWN
  }
}
