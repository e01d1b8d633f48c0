/** The "Fields and Limits" text of the team modals: `parse_limit` turns
    `"DPS:3 Sup:1 Tank"` into three limits. The create and the edit modal run
    the same loop and differ only in the word that names the healer list,
    so the parser takes the words naming it as a parameter. */
module LimitText {
  import opened Wrappers
  import opened Text
  import opened TeamRoster

  /** The three limits `parse_limit` returns. */
  datatype Limits = Limits(dps: Limit, healer: Limit, tank: Limit) {
    function Get(c: Category): Limit {
      match c
      case Dps => dps
      case Healer => healer
      case Tank => tank
    }

    function Set(c: Category, l: Limit): (r: Limits)
      ensures r.Get(c) == l
      ensures forall d :: d != c ==> r.Get(d) == Get(d)
    {
      match c
      case Dps => this.(dps := l)
      case Healer => this.(healer := l)
      case Tank => this.(tank := l)
    }
  }

  /** `dps, healers, tanks = 3, 1, 1`. */
  const Default: Limits := Limits(Finite(3), Finite(1), Finite(1))

  /** The spellings of infinity `float()` accepts with a non-negative sign. */
  predicate IsInfinity(s: string) {
    var t := ToLower(Strip(s));
    t == "inf" || t == "+inf" || t == "infinity" || t == "+infinity"
  }

  /** An integer literal is no spelling of infinity: it ends in a digit, each
      spelling in a letter. */
  lemma NotInfinity(s: string)
    requires ParseInt(s).Some?
    ensures !IsInfinity(s)
  {
    ParseIntEndsInDigit(s);
    var t := ToLower(Strip(s));
    var c := t[|t| - 1];
    assert c == Strip(s)[|Strip(s)| - 1];
    assert IsDigit(c);
  }

  /** `float(count)`, for integer literals and positive infinity; anything
      else raises ValueError (`None`). */
  function ParseCount(s: string): (r: Option<Limit>)
    ensures ParseInt(s).Some? ==> r == Some(Finite(ParseInt(s).value))
    ensures r == Some(Unlimited) <==> IsInfinity(s)
  {
    match ParseInt(s)
    case Some(n) =>
      NotInfinity(s);
      Some(Finite(n))
    case None => if IsInfinity(s) then Some(Unlimited) else None
  }

  /** The fields of one whitespace-separated token, split at ':'. */
  function Pieces(part: string): (r: seq<string>)
    ensures |r| >= 1
  {
    SplitOn(part, ':')
  }

  /** The role word of a token, lower-cased. */
  function RoleKey(part: string): string {
    ToLower(Pieces(part)[0])
  }

  /** The count of a token: infinity unless it is exactly `role:count`, else
      `float(count)`. */
  function CountOf(part: string): (r: Option<Limit>)
    ensures |Pieces(part)| != 2 ==> r == Some(Unlimited)
    ensures |Pieces(part)| == 2 ==> r == ParseCount(Pieces(part)[1])
  {
    var p := Pieces(part);
    if |p| != 2 then Some(Unlimited) else ParseCount(p[1])
  }

  /** The list a role word names: "dps", then a word of `healerKeys`, then
      "tank"; other words name none. */
  function CategoryFor(key: string, healerKeys: set<string>): (r: Option<Category>)
    ensures r == Some(Dps) <==> key == "dps"
    ensures r == Some(Healer) <==> key != "dps" && key in healerKeys
    ensures r == Some(Tank) <==> key != "dps" && key !in healerKeys && key == "tank"
  {
    if key == "dps" then Some(Dps)
    else if key in healerKeys then Some(Healer)
    else if key == "tank" then Some(Tank)
    else None
  }

  /** One pass of the loop: `None` when `float(count)` raises, else the limits
      with the named list's limit replaced (a role naming no list changes
      nothing). */
  function ApplyPart(acc: Limits, part: string, healerKeys: set<string>): (r: Option<Limits>)
    ensures r.None? <==> CountOf(part).None?
    ensures r.Some? && CategoryFor(RoleKey(part), healerKeys).None? ==> r.value == acc
    ensures r.Some? && CategoryFor(RoleKey(part), healerKeys).Some? ==>
              var c := CategoryFor(RoleKey(part), healerKeys).value;
              r.value.Get(c) == CountOf(part).value && forall d :: d != c ==> r.value.Get(d) == acc.Get(d)
  {
    match CountOf(part)
    case None => None
    case Some(count) =>
      match CategoryFor(RoleKey(part), healerKeys)
      case None => Some(acc)
      case Some(c) => Some(acc.Set(c, count))
  }

  /** The whole loop: the tokens in order, the first ValueError returning the
      limits gathered so far. */
  function ApplyParts(acc: Limits, parts: seq<string>, healerKeys: set<string>): Limits
    decreases |parts|
  {
    if parts == [] then acc
    else
      match ApplyPart(acc, parts[0], healerKeys)
      case None => acc
      case Some(next) => ApplyParts(next, parts[1..], healerKeys)
  }

  /** `parse_limit`: an empty text gives the defaults, otherwise the loop over
      `text.split()` starting from the defaults. */
  function ParseLimits(text: string, healerKeys: set<string>): Limits {
    if text == "" then Default else ApplyParts(Default, SplitWhitespace(text), healerKeys)
  }

  /** The token loop of `parse_limit`. */
  method ParseLimitsLoop(text: string, healerKeys: set<string>) returns (r: Limits)
    ensures r == ParseLimits(text, healerKeys)
  {
    r := Default;
    if text == "" {
      return;
    }
    var parts := SplitWhitespace(text);
    var i := 0;
    while i < |parts|
      invariant 0 <= i <= |parts|
      invariant ApplyParts(r, parts[i..], healerKeys) == ParseLimits(text, healerKeys)
    {
      var next := ApplyPart(r, parts[i], healerKeys);
      if next.None? {
        return;
      }
      assert parts[i..][1..] == parts[i + 1..];
      r := next.value;
      i := i + 1;
    }
  }

  // ---------------------------------------------------------------------------
  // Properties of the loop
  // ---------------------------------------------------------------------------

  /** Every token has a count `float()` accepts. */
  ghost predicate AllCount(parts: seq<string>) {
    forall i :: 0 <= i < |parts| ==> CountOf(parts[i]).Some?
  }

  /** The limits after the tokens in `ts`, all of them well formed, then one
      more. */
  lemma {:induction false} ApplyPartsSnoc(acc: Limits, ts: seq<string>, t: string, healerKeys: set<string>)
    requires AllCount(ts)
    ensures ApplyPart(ApplyParts(acc, ts, healerKeys), t, healerKeys).Some? ==>
              ApplyParts(acc, ts + [t], healerKeys) == ApplyPart(ApplyParts(acc, ts, healerKeys), t, healerKeys).value
    ensures ApplyPart(ApplyParts(acc, ts, healerKeys), t, healerKeys).None? ==>
              ApplyParts(acc, ts + [t], healerKeys) == ApplyParts(acc, ts, healerKeys)
    decreases |ts|
  {
    if ts == [] {
      assert [] + [t] == [t];
      assert [t][1..] == [];
    } else {
      var next := ApplyPart(acc, ts[0], healerKeys).value;
      assert (ts + [t])[1..] == ts[1..] + [t];
      assert AllCount(ts[1..]) by {
        forall i | 0 <= i < |ts[1..]| ensures CountOf(ts[1..][i]).Some? {
          assert ts[1..][i] == ts[i + 1];
        }
      }
      ApplyPartsSnoc(next, ts[1..], t, healerKeys);
    }
  }

  /** A token whose count `float()` rejects ends the loop: it and the tokens
      after it (`tail`) are ignored, the ones before it count. */
  lemma {:induction false} ApplyPartsStops(acc: Limits, ts: seq<string>, tail: seq<string>,
                                           healerKeys: set<string>)
    requires AllCount(ts) && tail != [] && CountOf(tail[0]).None?
    ensures ApplyParts(acc, ts + tail, healerKeys) == ApplyParts(acc, ts, healerKeys)
    decreases |ts|
  {
    if ts == [] {
      assert ts + tail == tail;
    } else {
      var next := ApplyPart(acc, ts[0], healerKeys).value;
      AllCountTail(ts);
      ApplyPartsStops(next, ts[1..], tail, healerKeys);
      ApplyPartsConsSplit(acc, ts, tail, healerKeys);
    }
  }

  /** `ApplyPartsCons` for a list of tokens and a suffix. */
  lemma ApplyPartsConsSplit(acc: Limits, ts: seq<string>, rest: seq<string>, healerKeys: set<string>)
    requires ts != [] && CountOf(ts[0]).Some?
    ensures ApplyParts(acc, ts + rest, healerKeys) ==
              ApplyParts(ApplyPart(acc, ts[0], healerKeys).value, ts[1..] + rest, healerKeys)
    ensures ApplyParts(acc, ts, healerKeys) == ApplyParts(ApplyPart(acc, ts[0], healerKeys).value, ts[1..], healerKeys)
  {
    assert (ts + rest)[0] == ts[0] && (ts + rest)[1..] == ts[1..] + rest;
  }

  lemma AllCountTail(ts: seq<string>)
    requires ts != [] && AllCount(ts)
    ensures AllCount(ts[1..])
  {
    forall i | 0 <= i < |ts[1..]| ensures CountOf(ts[1..][i]).Some? {
      assert ts[1..][i] == ts[i + 1];
    }
  }

  /** The count of the last token that names list `c`, if any. */
  function LastCount(parts: seq<string>, c: Category, healerKeys: set<string>): Option<Limit>
    decreases |parts|
  {
    if parts == [] then None
    else
      var t := parts[|parts| - 1];
      if CategoryFor(RoleKey(t), healerKeys) == Some(c) then CountOf(t)
      else LastCount(parts[..|parts| - 1], c, healerKeys)
  }

  /** When every count parses, each list gets the count of the last token
      naming it, and keeps its starting limit when no token names it. */
  lemma {:induction false} ApplyPartsLastWins(acc: Limits, parts: seq<string>, c: Category, healerKeys: set<string>)
    requires AllCount(parts)
    ensures ApplyParts(acc, parts, healerKeys).Get(c) == LastCount(parts, c, healerKeys).GetOr(acc.Get(c))
    decreases |parts|
  {
    if parts != [] {
      var ts, t := parts[..|parts| - 1], parts[|parts| - 1];
      assert ts + [t] == parts;
      assert AllCount(ts) by {
        forall i | 0 <= i < |ts| ensures CountOf(ts[i]).Some? {
          assert ts[i] == parts[i];
        }
      }
      assert CountOf(t).Some?;
      ApplyPartsSnoc(acc, ts, t, healerKeys);
      ApplyPartsLastWins(acc, ts, c, healerKeys);
    }
  }

  /** Only lists named by some token change. */
  lemma ParseLimitsUnnamed(text: string, healerKeys: set<string>, c: Category)
    requires forall i :: 0 <= i < |SplitWhitespace(text)| ==>
               CategoryFor(RoleKey(SplitWhitespace(text)[i]), healerKeys) != Some(c)
    ensures ParseLimits(text, healerKeys).Get(c) == Default.Get(c)
  {
    if text != "" {
      UnnamedKeeps(Default, SplitWhitespace(text), healerKeys, c);
    }
  }

  lemma {:induction false} UnnamedKeeps(acc: Limits, parts: seq<string>, healerKeys: set<string>, c: Category)
    requires forall i :: 0 <= i < |parts| ==> CategoryFor(RoleKey(parts[i]), healerKeys) != Some(c)
    ensures ApplyParts(acc, parts, healerKeys).Get(c) == acc.Get(c)
    decreases |parts|
  {
    if parts != [] {
      match ApplyPart(acc, parts[0], healerKeys)
      case None =>
      case Some(next) =>
        assert forall i :: 1 <= i < |parts| ==> parts[1..][i - 1] == parts[i];
        UnnamedKeeps(next, parts[1..], healerKeys, c);
    }
  }

  /** A text of only whitespace gives the defaults, as an empty one does. */
  lemma ParseLimitsBlank(text: string, healerKeys: set<string>)
    requires IsBlank(text)
    ensures ParseLimits(text, healerKeys) == Default
  {
    SplitWhitespaceBlank(text);
  }

  // ---------------------------------------------------------------------------
  // Writing limits as text
  // ---------------------------------------------------------------------------

  /** `_format_limit`: the bare role word for infinity, else `role:count`. */
  function FormatLimit(l: Limit, role: string): string {
    match l
    case Unlimited => role
    case Finite(n) => role + ":" + IntToString(n)
  }

  /** A token written by `FormatLimit` reads back as that role and limit. */
  lemma FormatLimitToken(l: Limit, role: string)
    requires role != "" && NoSpace(role) && ':' !in role
    ensures FormatLimit(l, role) != "" && NoSpace(FormatLimit(l, role))
    ensures RoleKey(FormatLimit(l, role)) == ToLower(role)
    ensures CountOf(FormatLimit(l, role)) == Some(l)
  {
    match l
    case Unlimited =>
      SplitOnNoSep(role, ':');
    case Finite(n) =>
      IntToStringNoChar(n, ':');
      IntToStringNoSpace(n);
      assert role + ":" + IntToString(n) == role + [':'] + IntToString(n);
      SplitOnPair(role, IntToString(n), ':');
      ParseIntToString(n);
  }

  lemma LowerRoleWords()
    ensures ToLower("DPS") == "dps" && ToLower("Sup") == "sup" && ToLower("Tank") == "tank"
  {
  }

  /** One written token updates the list its role word names. */
  lemma ApplyWrittenToken(acc: Limits, l: Limit, role: string, healerKeys: set<string>)
    requires role != "" && NoSpace(role) && ':' !in role
    ensures ApplyPart(acc, FormatLimit(l, role), healerKeys) ==
              Some(match CategoryFor(ToLower(role), healerKeys)
                   case None => acc
                   case Some(c) => acc.Set(c, l))
  {
    FormatLimitToken(l, role);
  }

  /** Three tokens whose counts all parse are applied one after the other. */
  lemma ApplyThree(acc: Limits, x: string, y: string, z: string, healerKeys: set<string>)
    requires CountOf(x).Some? && CountOf(y).Some? && CountOf(z).Some?
    ensures ApplyParts(acc, [x, y, z], healerKeys) ==
              ApplyPart(ApplyPart(ApplyPart(acc, x, healerKeys).value, y, healerKeys).value, z, healerKeys).value
  {
    var a1 := ApplyPart(acc, x, healerKeys).value;
    var a2 := ApplyPart(a1, y, healerKeys).value;
    ApplyPartsCons(a2, z, [], healerKeys);
    ApplyPartsCons(a1, y, [z], healerKeys);
    ApplyPartsCons(acc, x, [y, z], healerKeys);
    assert [x] + [y, z] == [x, y, z] && [y] + [z] == [y, z] && [z] + [] == [z];
  }

  /** One pass of the loop whose count parses hands its limits on to the
      rest of the tokens. */
  lemma ApplyPartsCons(acc: Limits, p: string, rest: seq<string>, healerKeys: set<string>)
    requires CountOf(p).Some?
    ensures ApplyParts(acc, [p] + rest, healerKeys) == ApplyParts(ApplyPart(acc, p, healerKeys).value, rest, healerKeys)
  {
    assert ([p] + rest)[1..] == rest;
  }

  /** A role word `FormatLimit` can write: non-empty, without whitespace
      or ':'. */
  predicate RoleWord(role: string) {
    role != "" && NoSpace(role) && ':' !in role
  }

  /** What one written token does to the limits. */
  function Assign(acc: Limits, role: string, l: Limit, healerKeys: set<string>): Limits {
    match CategoryFor(ToLower(role), healerKeys)
    case None => acc
    case Some(c) => acc.Set(c, l)
  }

  /** Three tokens without whitespace, joined by spaces, split back. */
  lemma SplitThree(x: string, y: string, z: string)
    requires x != "" && y != "" && z != "" && NoSpace(x) && NoSpace(y) && NoSpace(z)
    ensures Join(" ", [x, y, z]) != "" && SplitWhitespace(Join(" ", [x, y, z])) == [x, y, z]
  {
    var parts := [x, y, z];
    forall i | 0 <= i < |parts| ensures parts[i] != "" && NoSpace(parts[i]) {
      if i == 0 { assert parts[i] == x; } else if i == 1 { assert parts[i] == y; } else { assert parts[i] == z; }
    }
    SplitWhitespaceJoin(parts);
    Join3(" ", x, y, z);
  }

  /** The written text splits into its three tokens. */
  lemma WrittenTokens(a: Limit, b: Limit, c: Limit, r1: string, r2: string, r3: string)
    requires RoleWord(r1) && RoleWord(r2) && RoleWord(r3)
    ensures var parts := [FormatLimit(a, r1), FormatLimit(b, r2), FormatLimit(c, r3)];
            Join(" ", parts) != "" && SplitWhitespace(Join(" ", parts)) == parts
  {
    FormatLimitToken(a, r1);
    FormatLimitToken(b, r2);
    FormatLimitToken(c, r3);
    SplitThree(FormatLimit(a, r1), FormatLimit(b, r2), FormatLimit(c, r3));
  }

  /** Three written tokens, read back in order. */
  lemma ParseWrittenTokens(a: Limit, b: Limit, c: Limit, r1: string, r2: string, r3: string,
                           healerKeys: set<string>)
    requires RoleWord(r1) && RoleWord(r2) && RoleWord(r3)
    ensures ParseLimits(Join(" ", [FormatLimit(a, r1), FormatLimit(b, r2), FormatLimit(c, r3)]), healerKeys)
            == Assign(Assign(Assign(Default, r1, a, healerKeys), r2, b, healerKeys), r3, c, healerKeys)
  {
    var x, y, z := FormatLimit(a, r1), FormatLimit(b, r2), FormatLimit(c, r3);
    WrittenTokens(a, b, c, r1, r2, r3);
    FormatLimitToken(a, r1);
    FormatLimitToken(b, r2);
    FormatLimitToken(c, r3);
    ApplyThree(Default, x, y, z, healerKeys);
    var acc1 := Assign(Default, r1, a, healerKeys);
    var acc2 := Assign(acc1, r2, b, healerKeys);
    ApplyWrittenToken(Default, a, r1, healerKeys);
    ApplyWrittenToken(acc1, b, r2, healerKeys);
    ApplyWrittenToken(acc2, c, r3, healerKeys);
  }

  /** A lone written token whose role word names no list leaves the
      defaults. */
  lemma ParseUnknownToken(l: Limit, role: string, healerKeys: set<string>)
    requires RoleWord(role) && CategoryFor(ToLower(role), healerKeys).None?
    ensures ParseLimits(FormatLimit(l, role), healerKeys) == Default
  {
    var x := FormatLimit(l, role);
    FormatLimitToken(l, role);
    SplitWhitespaceJoin([x]);
    assert SplitWhitespace(x) == [x];
    ApplyWrittenToken(Default, l, role, healerKeys);
    assert ApplyPart(Default, x, healerKeys) == Some(Default);
    assert [x][1..] == [];
    assert ApplyParts(Default, [x], healerKeys) == ApplyParts(Default, [], healerKeys);
  }

  /** The three tokens `DPS…`, `Sup…`, `Tank…` (as the edit modal and the
      presets write them) parse back to their limits, except that the `Sup`
      token is ignored unless "sup" names the healer list; the healer limit
      then stays at its default of 1. */
  lemma ParseWrittenLimits(a: Limit, b: Limit, c: Limit, healerKeys: set<string>)
    requires "tank" !in healerKeys
    ensures ParseLimits(Join(" ", [FormatLimit(a, "DPS"), FormatLimit(b, "Sup"), FormatLimit(c, "Tank")]), healerKeys)
            == Limits(a, if "sup" in healerKeys then b else Finite(1), c)
  {
    assert RoleWord("DPS") && RoleWord("Sup") && RoleWord("Tank");
    ParseWrittenTokens(a, b, c, "DPS", "Sup", "Tank", healerKeys);
    LowerRoleWords();
  }
}
