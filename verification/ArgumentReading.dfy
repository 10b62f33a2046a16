/**
 * How an argparse parser without abbreviations reads the tokens that carry an agent argument, and
 * which of them the redactor recognises. `bare` are the short options that take no argument;
 * `splits` tells whether an equals sign behind a clustered option is a separator, as it is in
 * later versions of argparse, or the first character of the payload.
 */
module ArgumentReading {
  import opened Prelude
  import opened Redact

  /** The letters are the options without an argument that stand before `X` in one token. */
  datatype Reading =
    | NotOurs
    | InShort(letters: string, equals: bool, payload: string)
    | InLong(payload: string)
    | NextShort(letters: string)
    | NextLong

  /** What is read from the rest of a single-dash token, `letters` having been read already. */
  function ReadCluster(bare: set<char>, splits: bool, letters: string, rest: string): Reading
    decreases |rest|
  {
    if rest == "" then NotOurs
    else if rest[0] == 'X' then
      if |rest| == 1 then NextShort(letters)
      else if rest[1] == '=' && (letters == "" || splits) then InShort(letters, true, rest[2..])
      else InShort(letters, false, rest[1..])
    else if rest[0] in bare then ReadCluster(bare, splits, letters + [rest[0]], rest[1..])
    else NotOurs
  }

  function Read(bare: set<char>, splits: bool, token: string): Reading {
    if IsLong(token) then
      if token == "--agent-arg" then NextLong
      else if "--agent-arg=" <= token then InLong(token[12..])
      else NotOurs
    else if "-" <= token then ReadCluster(bare, splits, "", token[1..])
    else NotOurs
  }

  /** Nothing before `X` and no equals sign right behind it; or the long option. */
  predicate Recognised(r: Reading) {
    match r
    case NotOurs => false
    case InShort(letters, equals, _) => letters == "" && !equals
    case InLong(_) => true
    case NextShort(letters) => letters == ""
    case NextLong => true
  }

  predicate FromNext(r: Reading) { r.NextShort? || r.NextLong? }
  predicate Inside(r: Reading) { r.InShort? || r.InLong? }

  /** argparse takes no token as the argument of an option that it reads as an option of ours. */
  predicate CanBePayload(token: string) { !("-X" <= token) && !("--agent-arg" <= token) }

  /** argparse reads an option at position `i`: the token before does not claim it as its argument. */
  predicate OptionAt(argv: seq<string>, i: nat) {
    i < |argv| && (i > 0 ==> argv[i - 1] !in KV_FLAGS)
  }

  // ----- the letters of a cluster -----

  /** What is read stands at the end of the token, behind the letters, `X` and perhaps an equals sign. */
  lemma {:induction false} ClusterText(bare: set<char>, splits: bool, letters: string, rest: string)
    ensures var r := ReadCluster(bare, splits, letters, rest);
      && (r.InShort? || r.NextShort? ==> letters <= r.letters)
      && (r.InShort? ==> letters + rest == r.letters + "X" + (if r.equals then "=" else "") + r.payload)
      && (r.NextShort? ==> letters + rest == r.letters + "X")
      && !r.InLong? && !r.NextLong?
    decreases |rest|
  {
    if rest != "" && rest[0] != 'X' && rest[0] in bare {
      ClusterText(bare, splits, letters + [rest[0]], rest[1..]);
      assert letters + rest == letters + [rest[0]] + rest[1..];
    } else if rest != "" && rest[0] == 'X' {
      assert rest == "X" + rest[1..];
      if |rest| > 1 && rest[1] == '=' { assert rest == "X" + "=" + rest[2..]; }
    }
  }

  /** There is a letter before `X` exactly when the token does not start with `-X`. */
  lemma ClusterLetters(bare: set<char>, splits: bool, token: string)
    requires !IsLong(token) && "-" <= token
    ensures var r := Read(bare, splits, token);
      && (r.InShort? ==> (r.letters == "" <==> "-X" <= token) && (r.letters == "" ==> (r.equals <==> token[2] == '=')))
      && (r.NextShort? ==> (r.letters == "" <==> token == "-X"))
  {
    var rest := token[1..];
    var r := Read(bare, splits, token);
    ClusterText(bare, splits, "", rest);
    assert "" + rest == rest;
    assert token == "-" + rest;
    if rest != "" && rest[0] != 'X' && rest[0] in bare {
      ClusterText(bare, splits, "" + [rest[0]], rest[1..]);
    }
  }

  // ----- the redactor's view of the same token -----

  lemma OptionSlot(argv: seq<string>, i: nat)
    requires OptionAt(argv, i)
    ensures SlotAt(KV_FLAGS, argv, i) ==
      if argv[i] in KV_FLAGS && i + 1 < |argv| then Flag else Alone(KV_FLAGS, argv[i])
  {
  }

  lemma LongToken(token: string)
    requires "--agent-arg=" <= token
    ensures Alone(KV_FLAGS, token) == Long("--agent-arg") && token !in KV_FLAGS && token == "--agent-arg=" + token[12..]
  {
    DefaultSlot(token);
    assert "--agent-arg=" == "--agent-arg" + "=";
    assert |token| >= 12 && token[1] == "--agent-arg="[1] == '-' && "-X"[1] == 'X';
    assert token[..12] == "--agent-arg=";
  }

  lemma LongStart(token: string)
    requires token == "--agent-arg" || MatchesLong("--agent-arg", token)
    ensures IsLong(token)
  {
    var full := "--agent-arg" + "=";
    assert full[..2] == "--" && "--agent-arg"[..2] == "--";
    assert token[..2] == "--";
  }

  /** A token with a single dash and at least two characters, as the redactor classifies it. */
  lemma ShortSlot(token: string)
    requires !IsLong(token) && "-" <= token
    ensures token in KV_FLAGS <==> token == "-X"
    ensures Alone(KV_FLAGS, token) == if "-X" <= token && |token| > 2 && token[2] != '=' then Short("-X") else Other
  {
    DefaultSlot(token);
    NotLong("-X");
    if token == "--agent-arg" || MatchesLong("--agent-arg", token) {
      LongStart(token);
      assert false;
    }
  }

  lemma ShortToken(bare: set<char>, splits: bool, token: string)
    requires Read(bare, splits, token).InShort?
    ensures var r := Read(bare, splits, token);
      && token !in KV_FLAGS && Alone(KV_FLAGS, token) == (if Recognised(r) then Short("-X") else Other)
      && |r.payload| <= |token| && token[|token| - |r.payload|..] == r.payload
      && (Recognised(r) ==> |token| == 2 + |r.payload|)
  {
    var r := Read(bare, splits, token);
    ClusterLetters(bare, splits, token);
    ClusterEnd(bare, splits, token);
    ShortSlot(token);
  }

  lemma ClusterEnd(bare: set<char>, splits: bool, token: string)
    requires Read(bare, splits, token).InShort?
    ensures var r := Read(bare, splits, token);
      && |token| == 2 + |r.letters| + (if r.equals then 1 else 0) + |r.payload|
      && token[|token| - |r.payload|..] == r.payload
      && (r.letters == "" && !r.equals ==> r.payload != "" && r.payload[0] != '=')
  {
    var r, rest := Read(bare, splits, token), token[1..];
    ClusterText(bare, splits, "", rest);
    var tail := r.letters + "X" + if r.equals then "=" else "";
    assert "" + rest == rest;
    assert rest == tail + r.payload;
    assert token[|token| - |r.payload|..] == rest[|rest| - |r.payload|..];
    if rest[0] != 'X' && rest[0] in bare { ClusterText(bare, splits, "" + [rest[0]], rest[1..]); }
  }

  /** What stands at position `i` is scrubbed behind a head of `k` characters, or not at all. */
  lemma ScrubbedBehind(flags: seq<string>, argv: seq<string>, i: nat, k: nat, secret: string -> bool, mark: string)
    requires i < |argv| && k <= |argv[i]|
    ensures var slot, out := SlotAt(flags, argv, i), Scrub(flags, argv, secret, mark)[i];
      && (PayloadStart(slot, argv[i]) == k ==> out == argv[i][..k] + ScrubKv(argv[i][k..], secret, mark))
      && (slot == Other || slot == Flag ==> out == argv[i])
  {
    PayloadInside(flags, argv, i);
    NoPayload(argv[i], secret, mark);
  }

  lemma InsideSlot(bare: set<char>, splits: bool, argv: seq<string>, i: nat)
    requires OptionAt(argv, i) && Inside(Read(bare, splits, argv[i]))
    ensures var r := Read(bare, splits, argv[i]); var slot := SlotAt(KV_FLAGS, argv, i);
      && |r.payload| <= |argv[i]| && argv[i][|argv[i]| - |r.payload|..] == r.payload
      && (if Recognised(r) then PayloadStart(slot, argv[i]) == |argv[i]| - |r.payload| else slot == Other)
  {
    OptionSlot(argv, i);
    if Read(bare, splits, argv[i]).InLong? {
      ReadLong(bare, splits, argv[i]);
      LongToken(argv[i]);
    } else {
      ShortToken(bare, splits, argv[i]);
    }
  }

  /**
   * A payload that argparse delivers from inside a token is scrubbed exactly when nothing but the
   * flag stands before it in a shape that the redactor knows; otherwise the token goes through.
   */
  lemma DeliveredInside(bare: set<char>, splits: bool, argv: seq<string>, i: nat, secret: string -> bool, mark: string)
    requires OptionAt(argv, i) && Inside(Read(bare, splits, argv[i]))
    ensures var r := Read(bare, splits, argv[i]);
      && |r.payload| <= |argv[i]|
      && argv[i] == argv[i][..|argv[i]| - |r.payload|] + r.payload
      && Scrub(KV_FLAGS, argv, secret, mark)[i] ==
        argv[i][..|argv[i]| - |r.payload|] + if Recognised(r) then ScrubKv(r.payload, secret, mark) else r.payload
  {
    var payload := Read(bare, splits, argv[i]).payload;
    InsideSlot(bare, splits, argv, i);
    HeadAndTail(argv[i], |argv[i]| - |payload|);
    ScrubbedBehind(KV_FLAGS, argv, i, |argv[i]| - |payload|, secret, mark);
  }

  lemma HeadAndTail(s: string, k: nat)
    requires k <= |s|
    ensures s == s[..k] + s[k..]
  {
  }

  lemma ReadLong(bare: set<char>, splits: bool, token: string)
    requires Read(bare, splits, token).InLong?
    ensures "--agent-arg=" <= token && Read(bare, splits, token).payload == token[12..]
  {
    if !IsLong(token) && "-" <= token { ClusterText(bare, splits, "", token[1..]); }
  }

  lemma NextToken(bare: set<char>, splits: bool, token: string)
    requires FromNext(Read(bare, splits, token))
    ensures Recognised(Read(bare, splits, token)) <==> token in KV_FLAGS
    ensures token !in KV_FLAGS ==> Alone(KV_FLAGS, token) == Other
  {
    if !IsLong(token) {
      var r := Read(bare, splits, token);
      ClusterText(bare, splits, "", token[1..]);
      ClusterLetters(bare, splits, token);
      ShortSlot(token);
      assert "" + token[1..] == token[1..];
      assert |token| == 2 + |r.letters|;
    }
  }

  lemma PayloadToken(token: string)
    requires CanBePayload(token)
    ensures token !in KV_FLAGS && Alone(KV_FLAGS, token) == Other
  {
    DefaultSlot(token);
    assert MatchesLong("--agent-arg", token) ==> "--agent-arg" <= "--agent-arg" + "=" <= token;
  }

  /** And one that argparse delivers from the next token is scrubbed exactly when the flag stands alone in its token. */
  lemma DeliveredNext(bare: set<char>, splits: bool, argv: seq<string>, i: nat, secret: string -> bool, mark: string)
    requires OptionAt(argv, i) && FromNext(Read(bare, splits, argv[i])) && i + 1 < |argv| && CanBePayload(argv[i + 1])
    ensures var r := Read(bare, splits, argv[i]); var out := Scrub(KV_FLAGS, argv, secret, mark);
      && out[i] == argv[i]
      && out[i + 1] == if Recognised(r) then ScrubKv(argv[i + 1], secret, mark) else argv[i + 1]
  {
    OptionSlot(argv, i);
    NextToken(bare, splits, argv[i]);
    PayloadToken(argv[i + 1]);
    ScrubbedBehind(KV_FLAGS, argv, i, |argv[i]|, secret, mark);
    assert argv[i + 1][0..] == argv[i + 1] && argv[i + 1][..0] == "";
    ScrubbedBehind(KV_FLAGS, argv, i + 1, 0, secret, mark);
    assert "" + ScrubKv(argv[i + 1], secret, mark) == ScrubKv(argv[i + 1], secret, mark);
  }

  // ----- in short -----

  /** argparse delivers `payload` as an agent argument from position `i`, or from `i` and the token after it. */
  predicate Delivers(bare: set<char>, splits: bool, argv: seq<string>, i: nat, payload: string) {
    && OptionAt(argv, i)
    && var r := Read(bare, splits, argv[i]);
      || (Inside(r) && r.payload == payload)
      || (FromNext(r) && i + 1 < |argv| && CanBePayload(argv[i + 1]) && argv[i + 1] == payload)
  }

  /** The payload stands in the result as it was delivered: where it was, behind the same head. */
  predicate Shows(argv: seq<string>, out: seq<string>, i: nat, inside: bool)
    requires i < |argv| == |out| && (!inside ==> i + 1 < |argv|)
  {
    out[i] == argv[i] && (inside || out[i + 1] == argv[i + 1])
  }

  /**
   * Whatever shape argparse accepts, a secret payload that it delivers is redacted if and only if
   * no letter stands before `X` and no equals sign right behind it.
   */
  lemma RedactedIff(bare: set<char>, splits: bool, argv: seq<string>, i: nat, payload: string, secret: string -> bool,
      mark: string)
    requires Delivers(bare, splits, argv, i, payload) && ScrubKv(payload, secret, mark) != payload
    ensures var r := Read(bare, splits, argv[i]);
      Recognised(r) <==> !Shows(argv, Scrub(KV_FLAGS, argv, secret, mark), i, Inside(r))
  {
    var r := Read(bare, splits, argv[i]);
    if Inside(r) {
      DeliveredInside(bare, splits, argv, i, secret, mark);
      var head := argv[i][..|argv[i]| - |payload|];
      SameTail(head, payload, ScrubKv(payload, secret, mark));
    } else {
      DeliveredNext(bare, splits, argv, i, secret, mark);
    }
  }

  lemma SameTail(head: string, a: string, b: string)
    ensures head + a == head + b <==> a == b
  {
    assert (head + a)[|head|..] == a && (head + b)[|head|..] == b;
  }

  /** With one option letter before `X`, a payload in the same token goes through. */
  lemma ClusterGoesThrough(letter: char, payload: string, secret: string -> bool, mark: string)
    requires letter != 'X' && letter != '-' && payload != "" && payload[0] != '='
    ensures var argv := ["-" + [letter] + "X" + payload];
      Delivers({letter}, true, argv, 0, payload) && Scrub(KV_FLAGS, argv, secret, mark) == argv
  {
    var argv := ["-" + [letter] + "X" + payload];
    ClusterReading(letter, payload);
    DeliveredInside({letter}, true, argv, 0, secret, mark);
    var out := Scrub(KV_FLAGS, argv, secret, mark);
    assert out[0] == argv[0];
  }

  /** And so does one in the next token. */
  lemma ClusterBeforePayload(letter: char, payload: string, secret: string -> bool, mark: string)
    requires letter != 'X' && letter != '-' && CanBePayload(payload)
    ensures var argv := ["-" + [letter] + "X", payload];
      Delivers({letter}, true, argv, 0, payload) && Scrub(KV_FLAGS, argv, secret, mark) == argv
  {
    var argv := ["-" + [letter] + "X", payload];
    ClusterReading(letter, "");
    assert "-" + [letter] + "X" + "" == "-" + [letter] + "X";
    DeliveredNext({letter}, true, argv, 0, secret, mark);
    var out := Scrub(KV_FLAGS, argv, secret, mark);
    assert out[0] == argv[0] && out[1] == argv[1];
  }

  lemma ClusterReading(letter: char, payload: string)
    requires letter != 'X' && letter != '-' && (payload != "" ==> payload[0] != '=')
    ensures Read({letter}, true, "-" + [letter] + "X" + payload) ==
      if payload == "" then NextShort([letter]) else InShort([letter], false, payload)
  {
    var token := "-" + [letter] + "X" + payload;
    var rest, last := [letter] + "X" + payload, "X" + payload;
    assert "--"[1] == '-' && token[1] == letter;
    assert token[0] == '-' && token[1..] == rest && rest[1..] == last;
    assert "" + [letter] == [letter];
    assert Read({letter}, true, token) == ReadCluster({letter}, true, "", rest) ==
      ReadCluster({letter}, true, [letter], last);
    assert last[1..] == payload && last[0] == 'X';
  }
}
