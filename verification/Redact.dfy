/**
 * Redacting `key=value` payloads in an argument vector. `secret` is the test on names
 * (a regular expression in the program), `flags` the options whose payload is scrubbed.
 */
module Redact {
  import opened Prelude

  // ----- one key=value string -----

  predicate HasKey(item: string) { '=' in item }

  function KeyOf(item: string): string { item[..IndexOf(item, '=')] }

  predicate IsSecret(item: string, secret: string -> bool) { HasKey(item) && secret(KeyOf(item)) }

  function ScrubKv(item: string, secret: string -> bool, mark: string): string {
    if IsSecret(item, secret) then KeyOf(item) + "=" + mark else item
  }

  // ----- slots of an argument vector -----

  datatype Slot = Flag | Value | Short(flag: string) | Long(flag: string) | Other

  predicate IsLong(flag: string) { "--" <= flag }

  predicate MatchesShort(flag: string, arg: string) {
    !IsLong(flag) && flag <= arg && |arg| > |flag| && arg[|flag|] != '='
  }

  predicate MatchesLong(flag: string, arg: string) { IsLong(flag) && flag + "=" <= arg }

  function FirstShort(flags: seq<string>, arg: string): Option<string> {
    if flags == [] then None else if MatchesShort(flags[0], arg) then Some(flags[0]) else FirstShort(flags[1..], arg)
  }

  function FirstLong(flags: seq<string>, arg: string): Option<string> {
    if flags == [] then None else if MatchesLong(flags[0], arg) then Some(flags[0]) else FirstLong(flags[1..], arg)
  }

  /** An argument on its own: combined short form, long form with an equals sign, or neither. */
  function Alone(flags: seq<string>, arg: string): Slot {
    match FirstShort(flags, arg)
    case Some(f) => Short(f)
    case None => match FirstLong(flags, arg) case Some(f) => Long(f) case None => Other
  }

  /** What position `i` is: a flag followed by its value, such a value, or an argument on its own. */
  function SlotAt(flags: seq<string>, argv: seq<string>, i: nat): Slot
    requires i < |argv|
  {
    if i > 0 && SlotAt(flags, argv, i - 1) == Flag then Value
    else if argv[i] in flags && i + 1 < |argv| then Flag
    else Alone(flags, argv[i])
  }

  /** Where the payload of an argument starts in this slot; |arg| when it has none. */
  function PayloadStart(slot: Slot, arg: string): nat {
    match slot
    case Value => 0
    case Short(f) => |f|
    case Long(f) => |f| + 1
    case _ => |arg|
  }

  function ScrubArg(slot: Slot, arg: string, secret: string -> bool, mark: string): string
    requires PayloadStart(slot, arg) <= |arg|
  {
    var k := PayloadStart(slot, arg);
    arg[..k] + ScrubKv(arg[k..], secret, mark)
  }

  lemma {:induction false} FirstMatches(flags: seq<string>, arg: string)
    ensures FirstShort(flags, arg).Some? ==>
      FirstShort(flags, arg).value in flags && MatchesShort(FirstShort(flags, arg).value, arg)
    ensures FirstLong(flags, arg).Some? ==>
      FirstLong(flags, arg).value in flags && MatchesLong(FirstLong(flags, arg).value, arg)
  {
    if flags != [] { FirstMatches(flags[1..], arg); }
  }

  lemma PayloadInside(flags: seq<string>, argv: seq<string>, i: nat)
    requires i < |argv|
    ensures PayloadStart(SlotAt(flags, argv, i), argv[i]) <= |argv[i]|
  {
    FirstMatches(flags, argv[i]);
  }

  function Scrub(flags: seq<string>, argv: seq<string>, secret: string -> bool, mark: string): (out: seq<string>)
    ensures |out| == |argv|
  {
    seq(|argv|, i requires 0 <= i < |argv| =>
      PayloadInside(flags, argv, i);
      ScrubArg(SlotAt(flags, argv, i), argv[i], secret, mark))
  }

  lemma NoPayload(arg: string, secret: string -> bool, mark: string)
    ensures arg[..|arg|] + ScrubKv(arg[|arg|..], secret, mark) == arg
  {
    assert arg[|arg|..] == "" && arg[..|arg|] == arg;
  }

  lemma AfterPrefix(prefix: string, arg: string, rest: string)
    requires prefix <= arg
    ensures prefix + rest == arg[..|prefix|] + rest
  {
  }

  lemma ScrubArgIs(slot: Slot, arg: string, secret: string -> bool, mark: string, k: nat, payload: string)
    requires k == PayloadStart(slot, arg) <= |arg| && payload == ScrubKv(arg[k..], secret, mark)
    ensures ScrubArg(slot, arg, secret, mark) == arg[..k] + payload
  {
  }

  /** An argument on its own. */
  method ScrubAlone(flags: seq<string>, arg: string, secret: string -> bool, mark: string) returns (next: string)
    ensures PayloadStart(Alone(flags, arg), arg) <= |arg| && next == ScrubArg(Alone(flags, arg), arg, secret, mark)
  {
    FirstMatches(flags, arg);
    var short := FirstShort(flags, arg);
    var long := FirstLong(flags, arg);
    if short.Some? {
      next := ScrubBehind(short.value, arg, Short(short.value), secret, mark);
    } else if long.Some? {
      next := ScrubBehind(long.value + "=", arg, Long(long.value), secret, mark);
    } else {
      NoPayload(arg, secret, mark);
      next := arg;
    }
  }

  method ScrubBehind(prefix: string, arg: string, ghost slot: Slot, secret: string -> bool, mark: string)
      returns (next: string)
    requires prefix <= arg && PayloadStart(slot, arg) == |prefix|
    ensures next == ScrubArg(slot, arg, secret, mark)
  {
    var payload := ScrubKv(arg[|prefix|..], secret, mark);
    AfterPrefix(prefix, arg, payload);
    ScrubArgIs(slot, arg, secret, mark, |prefix|, payload);
    next := prefix + payload;
  }

  /** The loop body: what one argument becomes. */
  method ScrubOne(flags: seq<string>, arg: string, isValue: bool, isFlag: bool, secret: string -> bool, mark: string)
      returns (next: string)
    ensures var slot := if isValue then Value else if isFlag then Flag else Alone(flags, arg);
      PayloadStart(slot, arg) <= |arg| && next == ScrubArg(slot, arg, secret, mark)
  {
    if isValue {
      assert arg[0..] == arg && arg[..0] + ScrubKv(arg, secret, mark) == ScrubKv(arg, secret, mark);
      next := ScrubKv(arg, secret, mark);
    } else if isFlag {
      NoPayload(arg, secret, mark);
      next := arg;
    } else {
      next := ScrubAlone(flags, arg, secret, mark);
    }
  }

  lemma SlotNext(flags: seq<string>, argv: seq<string>, i: nat, skipped: bool)
    requires i < |argv| && (skipped <==> i > 0 && SlotAt(flags, argv, i - 1) == Flag)
    ensures var isFlag := !skipped && argv[i] in flags && i + 1 < |argv|;
      && SlotAt(flags, argv, i) == (if skipped then Value else if isFlag then Flag else Alone(flags, argv[i]))
      && (isFlag <==> SlotAt(flags, argv, i) == Flag)
  {
    assert Alone(flags, argv[i]) != Flag;
  }

  method ScrubNext(flags: seq<string>, argv: seq<string>, i: nat, skipped: bool, secret: string -> bool, mark: string)
      returns (next: string, isFlag: bool)
    requires i < |argv| && (skipped <==> i > 0 && SlotAt(flags, argv, i - 1) == Flag)
    ensures next == Scrub(flags, argv, secret, mark)[i] && (isFlag <==> SlotAt(flags, argv, i) == Flag)
  {
    SlotNext(flags, argv, i, skipped);
    isFlag := !skipped && argv[i] in flags && i + 1 < |argv|;
    next := ScrubOne(flags, argv[i], skipped, isFlag, secret, mark);
  }

  method ScrubArgv(flags: seq<string>, argv: seq<string>, secret: string -> bool, mark: string)
      returns (out: seq<string>)
    ensures out == Scrub(flags, argv, secret, mark)
  {
    ghost var all := Scrub(flags, argv, secret, mark);
    out := [];
    var skipNext := false;
    for i := 0 to |argv|
      invariant out == all[..i]
      invariant skipNext <==> i > 0 && SlotAt(flags, argv, i - 1) == Flag
    {
      var next: string;
      next, skipNext := ScrubNext(flags, argv, i, skipNext, secret, mark);
      out := out + [next];
    }
  }

  /** Of a pair whose name is secret, the value becomes the mark; everything else stays. */
  lemma KvExact(key: string, value: string, secret: string -> bool, mark: string)
    requires '=' !in key
    ensures ScrubKv(key, secret, mark) == key
    ensures ScrubKv(key + "=" + value, secret, mark) == if secret(key) then key + "=" + mark else key + "=" + value
  {
    var item := key + "=" + value;
    assert item[|key|] == '=' && item[..|key|] == key;
    IndexOfExact(item, '=', |key|);
  }

  /** The argument has the form head, name, equals sign, value, and the result the mark for the value. */
  ghost predicate Marked(arg: string, out: string, head: string, key: string, value: string, secret: string -> bool,
      mark: string)
  {
    && arg == head + (key + "=" + value) && '=' !in key && secret(key)
    && out == head + (key + "=" + mark)
  }

  lemma KvMarked(item: string, secret: string -> bool, mark: string)
    requires ScrubKv(item, secret, mark) != item
    ensures exists key, value :: Marked(item, ScrubKv(item, secret, mark), "", key, value, secret, mark)
  {
    var key, value := KeyOf(item), item[|KeyOf(item)| + 1..];
    assert item == key + "=" + value;
    assert "" + (key + "=" + value) == item && "" + (key + "=" + mark) == key + "=" + mark;
    assert Marked(item, ScrubKv(item, secret, mark), "", key, value, secret, mark);
  }

  /** Whatever the flags, an argument comes out unchanged or with the value of a secret pair replaced by the mark. */
  lemma OnlyValuesChange(flags: seq<string>, argv: seq<string>, secret: string -> bool, mark: string, i: nat)
    requires i < |argv|
    ensures var out := Scrub(flags, argv, secret, mark)[i];
      out == argv[i] || exists head, key, value :: Marked(argv[i], out, head, key, value, secret, mark)
  {
    var arg, out := argv[i], Scrub(flags, argv, secret, mark)[i];
    PayloadInside(flags, argv, i);
    var k := PayloadStart(SlotAt(flags, argv, i), arg);
    var item := arg[k..];
    assert arg == arg[..k] + item;
    if ScrubKv(item, secret, mark) != item {
      KvMarked(item, secret, mark);
      var key, value :| Marked(item, ScrubKv(item, secret, mark), "", key, value, secret, mark);
      MarkedBehind(arg[..k], item, ScrubKv(item, secret, mark), key, value, secret, mark);
      assert Marked(arg, out, arg[..k], key, value, secret, mark);
    }
  }

  lemma MarkedBehind(head: string, item: string, out: string, key: string, value: string, secret: string -> bool,
      mark: string)
    requires Marked(item, out, "", key, value, secret, mark)
    ensures Marked(head + item, head + out, head, key, value, secret, mark)
  {
    assert "" + (key + "=" + value) == key + "=" + value && "" + (key + "=" + mark) == key + "=" + mark;
  }

  // ----- idempotence and what the output tells -----

  /** No flag contains an equals sign; true of `-X`, `--agent-arg` and every flag a command line can use. */
  predicate Plain(flags: seq<string>) { forall f :: f in flags ==> '=' !in f }

  lemma ScrubKvSame(item: string, secret: string -> bool, mark: string)
    ensures IsSecret(item, secret) ==>
      HasKey(ScrubKv(item, secret, mark)) && KeyOf(ScrubKv(item, secret, mark)) == KeyOf(item)
    ensures ScrubKv(ScrubKv(item, secret, mark), secret, mark) == ScrubKv(item, secret, mark)
  {
    if IsSecret(item, secret) {
      var key := KeyOf(item);
      var r := key + "=" + mark;
      assert r[..|key|] == key && r[|key|] == '=';
      IndexOfExact(r, '=', |key|);
    }
  }

  /** Two strings that agree up to the first equals sign, and have one, match the same flags. */
  lemma SameHeadSameMatch(flag: string, a: string, b: string)
    requires '=' !in flag && HasKey(a) && HasKey(b) && KeyOf(a) == KeyOf(b)
    ensures MatchesShort(flag, a) <==> MatchesShort(flag, b)
    ensures MatchesLong(flag, a) <==> MatchesLong(flag, b)
  {
    HeadDecides(flag, a, b);
    HeadDecides(flag, b, a);
  }

  lemma HeadDecides(flag: string, a: string, b: string)
    requires '=' !in flag && HasKey(a) && HasKey(b) && KeyOf(a) == KeyOf(b)
    ensures MatchesShort(flag, a) ==> MatchesShort(flag, b)
    ensures MatchesLong(flag, a) ==> MatchesLong(flag, b)
  {
    var head := KeyOf(a);
    var k := |head|;
    assert k == IndexOf(a, '=') == IndexOf(b, '=');
    assert forall i :: 0 <= i < k ==> a[i] == head[i] && b[i] == head[i];
    if flag <= a {
      assert forall i :: 0 <= i < |flag| ==> flag[i] == a[i];
      assert flag <= b;
    }
    if flag + "=" <= a {
      assert (flag + "=")[|flag|] == a[|flag|];
      assert flag <= a;
      assert |flag| < k ==> '=' in head;
      assert flag + "=" <= b;
    }
  }

  lemma {:induction false} SameHeadAlone(flags: seq<string>, a: string, b: string)
    requires Plain(flags) && HasKey(a) && HasKey(b) && KeyOf(a) == KeyOf(b)
    ensures FirstShort(flags, a) == FirstShort(flags, b) && FirstLong(flags, a) == FirstLong(flags, b)
  {
    if flags != [] {
      assert flags[0] in flags && forall f :: f in flags[1..] ==> f in flags;
      SameHeadSameMatch(flags[0], a, b);
      SameHeadAlone(flags[1..], a, b);
    }
  }

  lemma ScrubAfterShort(flag: string, payload: string, secret: string -> bool, mark: string)
    requires '=' !in flag && IsSecret(payload, secret)
    ensures var arg, r := flag + payload, flag + ScrubKv(payload, secret, mark);
      HasKey(arg) && HasKey(r) && KeyOf(r) == KeyOf(arg)
  {
    var key := KeyOf(payload);
    var arg, r := flag + payload, flag + (key + "=" + mark);
    var n := |flag| + |key|;
    assert arg[..n] == flag + key && r[..n] == flag + key;
    assert arg[n] == payload[|key|] && r[n] == '=';
    IndexOfExact(arg, '=', n);
    IndexOfExact(r, '=', n);
  }

  lemma ScrubAfterLong(flag: string, rest: string, rest': string)
    requires '=' !in flag
    ensures var arg, r := flag + "=" + rest, flag + "=" + rest';
      HasKey(arg) && HasKey(r) && KeyOf(r) == KeyOf(arg)
  {
    var arg, r := flag + "=" + rest, flag + "=" + rest';
    assert arg[..|flag|] == flag && r[..|flag|] == flag && arg[|flag|] == '=' && r[|flag|] == '=';
    IndexOfExact(arg, '=', |flag|);
    IndexOfExact(r, '=', |flag|);
  }

  /** Scrubbing an argument of its own changes nothing before its first equals sign. */
  lemma ScrubArgHead(flags: seq<string>, arg: string, secret: string -> bool, mark: string)
    requires Plain(flags) && PayloadStart(Alone(flags, arg), arg) <= |arg|
    ensures var r := ScrubArg(Alone(flags, arg), arg, secret, mark);
      r == arg || (HasKey(arg) && HasKey(r) && KeyOf(r) == KeyOf(arg))
  {
    var slot := Alone(flags, arg);
    var k := PayloadStart(slot, arg);
    FirstMatches(flags, arg);
    NoPayload(arg, secret, mark);
    var payload := arg[k..];
    assert arg == arg[..k] + payload;
    if IsSecret(payload, secret) {
      match slot
      case Short(f) =>
        assert arg[..k] == f;
        ScrubAfterShort(f, payload, secret, mark);
      case Long(f) =>
        assert arg[..k] == f + "=";
        ScrubAfterLong(f, payload, ScrubKv(payload, secret, mark));
      case _ =>
    }
  }

  lemma {:induction false} SlotsSurvive(flags: seq<string>, argv: seq<string>, secret: string -> bool, mark: string,
      i: nat)
    requires Plain(flags) && i < |argv|
    ensures SlotAt(flags, Scrub(flags, argv, secret, mark), i) == SlotAt(flags, argv, i)
  {
    var out := Scrub(flags, argv, secret, mark);
    var arg := argv[i];
    if i > 0 { SlotsSurvive(flags, argv, secret, mark, i - 1); }
    PayloadInside(flags, argv, i);
    var slot := SlotAt(flags, argv, i);
    if slot == Flag {
      NoPayload(arg, secret, mark);
    } else if slot != Value {
      ScrubArgHead(flags, arg, secret, mark);
      if out[i] != arg {
        SameHeadAlone(flags, out[i], arg);
      }
    }
  }

  /** A second pass finds nothing left to do. */
  lemma ScrubIdempotent(flags: seq<string>, argv: seq<string>, secret: string -> bool, mark: string)
    requires Plain(flags)
    ensures Scrub(flags, Scrub(flags, argv, secret, mark), secret, mark) == Scrub(flags, argv, secret, mark)
  {
    var out := Scrub(flags, argv, secret, mark);
    forall i | 0 <= i < |argv| ensures Scrub(flags, out, secret, mark)[i] == out[i] {
      SlotsSurvive(flags, argv, secret, mark, i);
      PayloadInside(flags, argv, i);
      PayloadInside(flags, out, i);
      var k := PayloadStart(SlotAt(flags, argv, i), argv[i]);
      if SlotAt(flags, argv, i).Flag? || SlotAt(flags, argv, i).Other? {
        assert out[i] == argv[i];
      } else {
        var payload := argv[i][k..];
        ScrubKvSame(payload, secret, mark);
        assert out[i][..k] == argv[i][..k] && out[i][k..] == ScrubKv(payload, secret, mark);
      }
    }
  }

  /** Equal, except for the values of secret-keyed pairs in payload position. */
  ghost predicate Alike(flags: seq<string>, a: seq<string>, b: seq<string>, secret: string -> bool) {
    |a| == |b| && forall i :: 0 <= i < |a| ==> AlikeAt(flags, a, b, secret, i)
  }

  predicate AlikeAt(flags: seq<string>, a: seq<string>, b: seq<string>, secret: string -> bool, i: nat)
    requires i < |a| && i < |b|
  {
    var slot := SlotAt(flags, a, i);
    && slot == SlotAt(flags, b, i)
    && (a[i] == b[i] || (
      var k, l := PayloadStart(slot, a[i]), PayloadStart(slot, b[i]);
      k <= |a[i]| && l <= |b[i]| && a[i][..k] == b[i][..l]
      && IsSecret(a[i][k..], secret) && IsSecret(b[i][l..], secret) && KeyOf(a[i][k..]) == KeyOf(b[i][l..])))
  }

  /** The scrubbed vector tells two inputs apart exactly when they differ in more than secret values. */
  lemma ScrubRevealsExactly(flags: seq<string>, a: seq<string>, b: seq<string>, secret: string -> bool, mark: string)
    requires Plain(flags)
    ensures Scrub(flags, a, secret, mark) == Scrub(flags, b, secret, mark) <==> Alike(flags, a, b, secret)
  {
    var x, y := Scrub(flags, a, secret, mark), Scrub(flags, b, secret, mark);
    if |a| == |b| {
      forall i | 0 <= i < |a| ensures x == y ==> AlikeAt(flags, a, b, secret, i) {
        if x == y {
          SlotsSurvive(flags, a, secret, mark, i);
          SlotsSurvive(flags, b, secret, mark, i);
          SameScrub(flags, a, b, secret, mark, i);
        }
      }
      forall i | 0 <= i < |a| ensures AlikeAt(flags, a, b, secret, i) ==> x[i] == y[i] {
        PayloadInside(flags, a, i);
        PayloadInside(flags, b, i);
      }
    }
  }

  lemma SameScrub(flags: seq<string>, a: seq<string>, b: seq<string>, secret: string -> bool, mark: string, i: nat)
    requires i < |a| && i < |b| && SlotAt(flags, a, i) == SlotAt(flags, b, i)
    requires Scrub(flags, a, secret, mark)[i] == Scrub(flags, b, secret, mark)[i]
    ensures AlikeAt(flags, a, b, secret, i)
  {
    var slot := SlotAt(flags, a, i);
    PayloadInside(flags, a, i);
    PayloadInside(flags, b, i);
    if slot.Flag? || slot.Other? {
      NoPayload(a[i], secret, mark);
      NoPayload(b[i], secret, mark);
    } else {
      var k := PayloadStart(slot, a[i]);
      SamePayload(a[i], b[i], k, secret, mark);
    }
  }

  /** Equal texts with heads of one length have equal heads and equal tails. */
  lemma SplitAlike(a: string, x: string, b: string, y: string)
    requires |a| == |b| && a + x == b + y
    ensures a == b && x == y
  {
    assert (a + x)[..|a|] == a && (b + y)[..|a|] == b;
    assert (a + x)[|a|..] == x && (b + y)[|a|..] == y;
  }

  lemma SameKv(p: string, q: string, secret: string -> bool, mark: string)
    requires ScrubKv(p, secret, mark) == ScrubKv(q, secret, mark)
    ensures p == q || (IsSecret(p, secret) && IsSecret(q, secret) && KeyOf(p) == KeyOf(q))
  {
    ScrubKvSame(p, secret, mark);
    ScrubKvSame(q, secret, mark);
  }

  lemma SamePayload(a: string, b: string, k: nat, secret: string -> bool, mark: string)
    requires k <= |a| && k <= |b|
    requires a[..k] + ScrubKv(a[k..], secret, mark) == b[..k] + ScrubKv(b[k..], secret, mark)
    ensures a[..k] == b[..k]
    ensures a == b || (IsSecret(a[k..], secret) && IsSecret(b[k..], secret) && KeyOf(a[k..]) == KeyOf(b[k..]))
  {
    SplitAlike(a[..k], ScrubKv(a[k..], secret, mark), b[..k], ScrubKv(b[k..], secret, mark));
    SameKv(a[k..], b[k..], secret, mark);
    assert a == a[..k] + a[k..] && b == b[..k] + b[k..];
  }

  // ----- what the flags' shapes leave out -----

  const KV_FLAGS: seq<string> := ["-X", "--agent-arg"]

  lemma NotLong(flag: string)
    requires |flag| >= 2 && flag[1] != '-'
    ensures !IsLong(flag)
  {
    assert "--"[1] == '-';
  }

  lemma DefaultSlot(arg: string)
    ensures Alone(KV_FLAGS, arg) ==
      if MatchesShort("-X", arg) then Short("-X")
      else if MatchesLong("--agent-arg", arg) then Long("--agent-arg")
      else Other
  {
    assert KV_FLAGS[1..] == ["--agent-arg"] && ["--agent-arg"][1..] == [];
    NotLong("-X");
    assert IsLong("--agent-arg");
    assert FirstShort(["--agent-arg"], arg) == None;
    assert FirstShort(KV_FLAGS, arg) == if MatchesShort("-X", arg) then Some("-X") else None;
    assert FirstLong(["--agent-arg"], arg) == if MatchesLong("--agent-arg", arg) then Some("--agent-arg") else None;
  }

  /** Of the combined short forms, those are recognised in which no equals sign follows the flag. */
  lemma ShortFormIff(arg: string)
    requires "-X" <= arg && |arg| > 2
    ensures Alone(KV_FLAGS, arg) == Short("-X") <==> arg[2] != '='
    ensures arg[2] == '=' ==> Alone(KV_FLAGS, arg) == Other
  {
    DefaultSlot(arg);
    assert arg[1] == 'X';
    assert "--agent-arg="[1] == '-';
  }

  /** So `-X=key=value`, which argparse accepts as well, goes through as it is, whatever the key. */
  lemma ShortFormWithEquals(payload: string, secret: string -> bool, mark: string)
    ensures Scrub(KV_FLAGS, ["-X=" + payload], secret, mark) == ["-X=" + payload]
  {
    var arg := "-X=" + payload;
    var argv := [arg];
    ShortFormIff(arg);
    assert SlotAt(KV_FLAGS, argv, 0) == Other;
    NoPayload(arg, secret, mark);
  }

  /**
   * A flag with an equals sign can be what scrubbing another flag's payload gives: a second pass then
   * reads a new slot.
   */
  lemma FlagWithEqualsNotIdempotent(secret: string -> bool)
    requires secret("T")
    ensures var flags := ["-a", "-aT=m"]; var once := Scrub(flags, ["-aT=v", "T=w"], secret, "m");
      once == ["-aT=m", "T=w"] && Scrub(flags, once, secret, "m") == ["-aT=m", "T=m"]
  {
    FirstPass(secret);
    SecondPass(secret);
  }

  lemma FirstPass(secret: string -> bool)
    requires secret("T")
    ensures Scrub(["-a", "-aT=m"], ["-aT=v", "T=w"], secret, "m") == ["-aT=m", "T=w"]
  {
    var flags, argv := ["-a", "-aT=m"], ["-aT=v", "T=w"];
    assert flags[1..] == ["-aT=m"] && ["-aT=m"][1..] == [];
    NotLong("-a");
    NotLong("-aT=m");
    KeyOfOne("v");
    assert "-aT=v"[4] == 'v' && "-aT=m"[4] == 'm';
    assert SlotAt(flags, argv, 0) == Short("-a");
    assert "-aT=v"[2..] == "T=" + "v" && "-aT=v"[..2] == "-a";
    assert "T=w"[0] == 'T' && "-a"[0] == '-' && "-aT=m"[0] == '-';
    assert SlotAt(flags, argv, 1) == Other;
    NoPayload("T=w", secret, "m");
    ScrubArgIs(Short("-a"), "-aT=v", secret, "m", 2, "T=" + "m");
    assert "-a" + ("T=" + "m") == "-aT=m";
    var out := Scrub(flags, argv, secret, "m");
    assert out[0] == "-aT=m" && out[1] == "T=w";
  }

  lemma SecondPass(secret: string -> bool)
    requires secret("T")
    ensures Scrub(["-a", "-aT=m"], ["-aT=m", "T=w"], secret, "m") == ["-aT=m", "T=m"]
  {
    var flags, argv := ["-a", "-aT=m"], ["-aT=m", "T=w"];
    KeyOfOne("w");
    assert flags[1] == "-aT=m";
    assert SlotAt(flags, argv, 0) == Flag && SlotAt(flags, argv, 1) == Value;
    NoPayload("-aT=m", secret, "m");
    assert "T=w" == "T=" + "w";
    assert "T=w"[0..] == "T=w" && "T=w"[..0] == "";
    ScrubArgIs(Value, "T=w", secret, "m", 0, "T=" + "m");
    assert "" + ("T=" + "m") == "T=m";
    var out := Scrub(flags, argv, secret, "m");
    assert out[0] == "-aT=m" && out[1] == "T=m";
  }

  lemma KeyOfOne(value: string)
    ensures HasKey("T=" + value) && KeyOf("T=" + value) == "T"
  {
    var item := "T=" + value;
    assert item[1] == '=' && item[..1] == "T";
    IndexOfExact(item, '=', 1);
  }
}
