/** The taxonomy of agent failures, and projecting arbitrary text onto it. */
module ErrorTypes {
  import opened Prelude

  const AUTHENTICATION_FAILED := "authentication_failed"
  const RATE_LIMITED := "rate_limited"
  const TIMEOUT := "timeout"
  const MODEL_UNAVAILABLE := "model_unavailable"
  const REFUSED := "refused"
  const UNKNOWN := "unknown"

  const ENVIRONMENTAL: set<string> := {AUTHENTICATION_FAILED, RATE_LIMITED, TIMEOUT, MODEL_UNAVAILABLE}
  const ERROR_TYPES: set<string> := ENVIRONMENTAL + {REFUSED, UNKNOWN}

  /** A token and the patterns that announce it. */
  datatype Category = Category(token: string, patterns: seq<string>)

  /** In scanning order: model availability before authentication. */
  const CATEGORIES: seq<Category> := [
    Category(MODEL_UNAVAILABLE,
      ["model_not_found", "model not found", "does not have access to model", "no access to model",
      "model is not available", "the model `", "unknown model", "unsupported model"]),
    Category(AUTHENTICATION_FAILED,
      ["not logged in", "please run /login", "please run `claude login`", "failed to authenticate",
      "invalid authentication credentials", "authentication_error", "authentication failed", "authentication required",
      "401 unauthorized", "http 401", " 401 ", "unauthorized: invalid", "expired token", "token expired", "has expired",
      "please log in", "please login", "not authenticated"]),
    Category(RATE_LIMITED, ["rate_limit", "rate limit", "rate-limit", "rate limited", " 429 ", "http 429",
      "too many requests",
      "quota exceeded", "insufficient quota"]),
    Category(TIMEOUT, ["request timed out", "deadline exceeded", "operation timed out", "context deadline exceeded",
      "504 gateway timeout"]),
    Category(REFUSED, ["i can't help with that", "i cannot help with", "i won't help with", "i'm not able to help",
      "model refused"])]

  predicate Contains(text: string, pattern: string) {
    pattern <= text || (text != "" && Contains(text[1..], pattern))
  }

  predicate AnyIn(text: string, patterns: seq<string>) {
    patterns != [] && (Contains(text, patterns[0]) || AnyIn(text, patterns[1..]))
  }

  function Scan(text: string, categories: seq<Category>): Option<string> {
    if categories == [] then None
    else if AnyIn(text, categories[0].patterns) then Some(categories[0].token)
    else Scan(text, categories[1..])
  }

  /** `lower` is the string method of that name. */
  function ClassifyError(text: Option<string>, lower: string -> string): Option<string> {
    if text.None? || text.value == "" then None else Scan(lower(text.value), CATEGORIES)
  }

  function FirstClassified(texts: seq<Option<string>>, lower: string -> string): Option<string> {
    if texts == [] then None
    else if ClassifyError(texts[0], lower).Some? then ClassifyError(texts[0], lower)
    else FirstClassified(texts[1..], lower)
  }

  function NormalizeErrorType(raw: Option<string>, texts: seq<Option<string>>,
      lower: string -> string): Option<string> {
    if raw.Some? && raw.value != "" && raw.value in ERROR_TYPES then raw else FirstClassified([raw] + texts, lower)
  }

  ghost predicate OccursAt(text: string, pattern: string, i: nat) {
    i <= |text| && pattern <= text[i..]
  }

  /** `pattern in text`. */
  ghost predicate Occurs(text: string, pattern: string) { exists i: nat :: OccursAt(text, pattern, i) }

  lemma {:induction false} ContainsIff(text: string, pattern: string)
    ensures Contains(text, pattern) <==> Occurs(text, pattern)
  {
    assert text[0..] == text;
    assert OccursAt(text, pattern, 0) <==> pattern <= text;
    if text != "" {
      ContainsIff(text[1..], pattern);
      forall i: nat | OccursAt(text[1..], pattern, i) ensures OccursAt(text, pattern, i + 1) {
        assert text[1..][i..] == text[i + 1..];
      }
      forall i: nat | OccursAt(text, pattern, i) && i > 0 ensures OccursAt(text[1..], pattern, i - 1) {
        assert text[1..][i - 1..] == text[i..];
      }
    }
  }

  ghost predicate SomeOccurs(text: string, patterns: seq<string>) { exists p :: p in patterns && Occurs(text, p) }

  lemma SomeOccursCons(text: string, first: string, rest: seq<string>)
    ensures SomeOccurs(text, [first] + rest) <==> Occurs(text, first) || SomeOccurs(text, rest)
  {
    var all := [first] + rest;
    assert first in all;
    if SomeOccurs(text, rest) {
      var p :| p in rest && Occurs(text, p);
      assert p in all;
    }
  }

  lemma {:induction false} AnyInIff(text: string, patterns: seq<string>)
    ensures AnyIn(text, patterns) <==> SomeOccurs(text, patterns)
  {
    if patterns != [] {
      AnyInIff(text, patterns[1..]);
      ContainsIff(text, patterns[0]);
      SomeOccursCons(text, patterns[0], patterns[1..]);
      assert patterns == [patterns[0]] + patterns[1..];
    }
  }

  /** `token` is what the first category with a pattern in the text announces. */
  ghost predicate Decides(text: string, categories: seq<Category>, c: nat, token: string) {
    && c < |categories| && categories[c].token == token && SomeOccurs(text, categories[c].patterns)
    && forall d :: 0 <= d < c ==> !SomeOccurs(text, categories[d].patterns)
  }

  lemma {:induction false} ScanDecides(text: string, categories: seq<Category>)
    ensures Scan(text, categories).Some? ==> exists c: nat :: Decides(text, categories, c, Scan(text, categories).value)
    ensures Scan(text, categories).None? <==>
      forall c :: 0 <= c < |categories| ==> !SomeOccurs(text, categories[c].patterns)
  {
    if categories != [] {
      var tail := categories[1..];
      AnyInIff(text, categories[0].patterns);
      ScanDecides(text, tail);
      if AnyIn(text, categories[0].patterns) {
        assert Decides(text, categories, 0, categories[0].token);
      } else {
        assert forall d :: 0 < d < |categories| ==> categories[d] == tail[d - 1];
        if Scan(text, tail).Some? {
          var c: nat :| Decides(text, tail, c, Scan(text, tail).value);
          assert Decides(text, categories, c + 1, Scan(text, tail).value);
        }
      }
    }
  }

  lemma ClassifiedToken(text: Option<string>, lower: string -> string)
    ensures ClassifyError(text, lower).Some? ==> ClassifyError(text, lower).value in ERROR_TYPES - {UNKNOWN}
  {
    if ClassifyError(text, lower).Some? {
      var t := lower(text.value);
      ScanDecides(t, CATEGORIES);
      var c: nat :| Decides(t, CATEGORIES, c, Scan(t, CATEGORIES).value);
      assert c == 0 || c == 1 || c == 2 || c == 3 || c == 4;
    }
  }

  /**
   * A text is classified by the first category with a pattern that occurs in the text in lower case;
   * no text, an empty one and one without any pattern are not classified.
   */
  lemma ClassifiedIff(text: Option<string>, lower: string -> string)
    ensures ClassifyError(text, lower).Some? ==> text.Some? && text.value != ""
    ensures ClassifyError(text, lower).Some? ==>
      exists c: nat :: Decides(lower(text.value), CATEGORIES, c, ClassifyError(text, lower).value)
    ensures ClassifyError(text, lower).None? <==>
      text.None? || text.value == "" ||
      forall c :: 0 <= c < |CATEGORIES| ==> !SomeOccurs(lower(text.value), CATEGORIES[c].patterns)
  {
    if text.Some? { ScanDecides(lower(text.value), CATEGORIES); }
  }

  ghost predicate FirstWith(texts: seq<Option<string>>, lower: string -> string, i: nat) {
    && i < |texts| && ClassifyError(texts[i], lower).Some?
    && forall j :: 0 <= j < i ==> ClassifyError(texts[j], lower).None?
  }

  lemma {:induction false} FirstDecides(texts: seq<Option<string>>, lower: string -> string)
    ensures FirstClassified(texts, lower).Some? ==>
      exists i: nat :: FirstWith(texts, lower, i) && FirstClassified(texts, lower) == ClassifyError(texts[i], lower)
  {
    if texts != [] && ClassifyError(texts[0], lower).Some? {
      assert FirstWith(texts, lower, 0);
    } else if texts != [] {
      FirstDecides(texts[1..], lower);
      if FirstClassified(texts, lower).Some? {
        var i: nat :| FirstWith(texts[1..], lower, i)
          && FirstClassified(texts, lower) == ClassifyError(texts[1..][i], lower);
        assert forall j :: 0 < j < |texts| ==> texts[j] == texts[1..][j - 1];
        assert FirstWith(texts, lower, i + 1);
      }
    }
  }

  /** A label outside the taxonomy is read like the texts after it; of these the first that is classified decides. */
  lemma NormalizedFirst(raw: Option<string>, texts: seq<Option<string>>, lower: string -> string)
    requires raw.None? || raw.value !in ERROR_TYPES
    ensures NormalizeErrorType(raw, texts, lower).Some? ==>
      exists i: nat :: FirstWith([raw] + texts, lower, i) &&
        NormalizeErrorType(raw, texts, lower) == ClassifyError(([raw] + texts)[i], lower)
  {
    FirstDecides([raw] + texts, lower);
  }

  /** Whatever label a vendor uses, only a token of the taxonomy comes out, and a token goes through unchanged. */
  lemma {:induction false} NormalizedToken(raw: Option<string>, texts: seq<Option<string>>, lower: string -> string)
    ensures var r := NormalizeErrorType(raw, texts, lower);
      && (r.Some? ==> r.value in ERROR_TYPES)
      && (raw.Some? && raw.value in ERROR_TYPES ==> r == raw)
      && (r == Some(UNKNOWN) ==> raw == r)
      && (r.None? ==> forall t :: t in [raw] + texts ==> ClassifyError(t, lower).None?)
  {
    FirstClassifiedToken([raw] + texts, lower);
  }

  lemma {:induction false} FirstClassifiedToken(texts: seq<Option<string>>, lower: string -> string)
    ensures FirstClassified(texts, lower).Some? ==> FirstClassified(texts, lower).value in ERROR_TYPES - {UNKNOWN}
    ensures FirstClassified(texts, lower).None? ==> forall t :: t in texts ==> ClassifyError(t, lower).None?
  {
    if texts != [] {
      ClassifiedToken(texts[0], lower);
      FirstClassifiedToken(texts[1..], lower);
    }
  }
}
