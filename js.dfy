/**
 * The JavaScript value semantics the dashboard relies on: truthiness of an
 * optional string, `new Date(...)` comparisons, `String.prototype.trim`,
 * `Number.prototype.toString` on integers, and the two record predicates that
 * the list view and the dashboard share (expiry and "has every selected tag").
 *
 * `new Date(s)` is a parameter `parseDate: string -> Option<int>`: `Some(t)` is
 * the timestamp `t`, `None` is an Invalid Date, with which every comparison is false.
 */
module Js {
  import opened Seqs

  /** `if (s)` for a string that may be absent: absent and `""` are falsy. */
  predicate Truthy(s: Option<string>)
  {
    s.Some? && s.value != ""
  }

  /** `new Date(s) > new Date()`: false for an Invalid Date. */
  predicate LaterThan(parseDate: string -> Option<int>, s: string, now: int)
  {
    parseDate(s).Some? && parseDate(s).value > now
  }

  /** `new Date(a) >= new Date(b)`: false when either is an Invalid Date. */
  predicate NotBefore(parseDate: string -> Option<int>, a: string, b: string)
  {
    parseDate(a).Some? && parseDate(b).Some? && parseDate(a).value >= parseDate(b).value
  }

  /** `new Date(a) <= new Date(b)`: false when either is an Invalid Date. */
  predicate NotAfter(parseDate: string -> Option<int>, a: string, b: string)
  {
    parseDate(a).Some? && parseDate(b).Some? && parseDate(a).value <= parseDate(b).value
  }

  /** `!url.expiresAt || new Date(url.expiresAt) > new Date()`. */
  predicate NotExpired(expiresAt: Option<string>, now: int, parseDate: string -> Option<int>)
  {
    !Truthy(expiresAt) || LaterThan(parseDate, expiresAt.value, now)
  }

  /** `selectedTags.every(tag => url.tags?.includes(tag))`. */
  predicate HasAllTags(tags: Option<seq<string>>, selected: seq<string>)
  {
    forall t :: t in selected ==> tags.Some? && t in tags.value
  }

  /**
   * The tag test is a superset test on the record's tags; a record without
   * tags passes only an empty selection.
   */
  lemma HasAllTagsMeaning(tags: Option<seq<string>>, selected: seq<string>)
    ensures selected == [] ==> HasAllTags(tags, selected)
    ensures tags.None? && selected != [] ==> !HasAllTags(tags, selected)
    ensures tags.Some? ==> (HasAllTags(tags, selected) <==> (set t | t in selected) <= (set t | t in tags.value))
  {
    if tags.None? && selected != [] {
      assert selected[0] in selected;
    }
    if tags.Some? {
      var want, have := set t | t in selected, set t | t in tags.value;
      if want <= have {
        forall t | t in selected ensures t in tags.value {
          assert t in want;
          assert t in have;
        }
      }
    }
  }

  /** The characters `String.prototype.trim` removes: WhiteSpace and LineTerminator of ECMA-262. */
  predicate IsWhitespace(c: char)
  {
    || c == '\t' || c == '\n' || c == '\U{000B}' || c == '\U{000C}' || c == '\r' || c == ' '
    || c == '\U{00A0}' || c == '\U{1680}' || ('\U{2000}' <= c <= '\U{200A}')
    || c == '\U{2028}' || c == '\U{2029}' || c == '\U{202F}' || c == '\U{205F}'
    || c == '\U{3000}' || c == '\U{FEFF}'
  }

  function TrimStart(s: string): (r: string)
    ensures |r| <= |s| && r == s[|s| - |r|..]
    ensures r != [] ==> !IsWhitespace(r[0])
    ensures forall i :: 0 <= i < |s| - |r| ==> IsWhitespace(s[i])
  {
    if s != [] && IsWhitespace(s[0]) then TrimStart(s[1..]) else s
  }

  function TrimEnd(s: string): (r: string)
    ensures |r| <= |s| && r == s[..|r|]
    ensures r != [] ==> !IsWhitespace(r[|r| - 1])
    ensures forall i :: |r| <= i < |s| ==> IsWhitespace(s[i])
  {
    if s != [] && IsWhitespace(s[|s| - 1]) then TrimEnd(s[..|s| - 1]) else s
  }

  /** `s.trim()`. */
  function Trim(s: string): string
  {
    TrimEnd(TrimStart(s))
  }

  /** Outside `s[i..j]` there is only whitespace. */
  predicate OnlyWhitespaceOutside(s: string, i: nat, j: nat)
    requires i <= j <= |s|
  {
    && (forall k :: 0 <= k < i ==> IsWhitespace(s[k]))
    && (forall k :: j <= k < |s| ==> IsWhitespace(s[k]))
  }

  /**
   * `s.trim()` is the slice of `s` that drops its whitespace on both sides:
   * it is empty exactly when `s` is all whitespace, and otherwise starts and
   * ends with a non-whitespace character.
   */
  lemma TrimSpec(s: string)
    ensures exists i: nat, j: nat :: i <= j <= |s| && Trim(s) == s[i..j] && OnlyWhitespaceOutside(s, i, j)
    ensures Trim(s) == "" <==> forall k :: 0 <= k < |s| ==> IsWhitespace(s[k])
    ensures Trim(s) != "" ==> !IsWhitespace(Trim(s)[0]) && !IsWhitespace(Trim(s)[|Trim(s)| - 1])
  {
    var t := TrimStart(s);
    var i: nat := |s| - |t|;
    var j: nat := i + |TrimEnd(t)|;
    assert t == s[i..];
    assert Trim(s) == s[i..j];
    assert OnlyWhitespaceOutside(s, i, j) by {
      forall k | j <= k < |s| ensures IsWhitespace(s[k]) {
        assert s[k] == t[k - i];
      }
    }
    if Trim(s) == "" {
      assert i == j;
    } else {
      assert Trim(s)[0] == TrimEnd(t)[0] == t[0];
    }
  }

  /** Trimming twice is trimming once. */
  lemma {:induction false} TrimIdempotent(s: string)
    ensures Trim(Trim(s)) == Trim(s)
  {
    var r := Trim(s);
    if r != [] {
      assert TrimStart(r) == r;
      TrimEndNoTrailing(r);
    }
  }

  lemma TrimEndNoTrailing(s: string)
    requires s != [] && !IsWhitespace(s[|s| - 1])
    ensures TrimEnd(s) == s
  {
  }

  function DigitChar(d: nat): (c: char)
    requires d < 10
    ensures '0' <= c <= '9' && c as int - '0' as int == d
  {
    ['0', '1', '2', '3', '4', '5', '6', '7', '8', '9'][d]
  }

  /** Decimal digits of `n`, with no leading zero. */
  function NatToString(n: nat): (r: string)
    ensures r != []
    ensures forall i :: 0 <= i < |r| ==> '0' <= r[i] <= '9'
  {
    if n < 10 then [DigitChar(n)] else NatToString(n / 10) + [DigitChar(n % 10)]
  }

  /** `n.toString()` for an integral number. */
  function IntToString(n: int): (r: string)
  {
    if n < 0 then "-" + NatToString(-n) else NatToString(n)
  }

  /** The number a string of decimal digits denotes. */
  function DigitsValue(s: string): nat
    requires forall i :: 0 <= i < |s| ==> '0' <= s[i] <= '9'
  {
    if s == [] then 0 else 10 * DigitsValue(s[..|s| - 1]) + (s[|s| - 1] as int - '0' as int)
  }

  /** Decimal digits, optionally after a minus sign. */
  predicate IsIntText(s: string)
  {
    if s != [] && s[0] == '-' then forall i :: 1 <= i < |s| ==> '0' <= s[i] <= '9'
    else forall i :: 0 <= i < |s| ==> '0' <= s[i] <= '9'
  }

  /** `parseInt(s, 10)` on decimal text. */
  function ParseInt(s: string): int
    requires IsIntText(s)
  {
    if s != [] && s[0] == '-' then 0 - DigitsValue(s[1..]) else DigitsValue(s)
  }

  lemma {:induction false} NatToStringValue(n: nat)
    ensures DigitsValue(NatToString(n)) == n
  {
    if n >= 10 {
      NatToStringValue(n / 10);
      var r := NatToString(n);
      assert r[..|r| - 1] == NatToString(n / 10);
    }
  }

  /** `toString` on an integer is read back by `parseInt`, and it never holds a comma or a line break. */
  lemma IntToStringRoundTrip(n: int)
    ensures ',' !in IntToString(n) && '\n' !in IntToString(n)
    ensures IsIntText(IntToString(n)) && ParseInt(IntToString(n)) == n
  {
    var d := NatToString(if n < 0 then -n else n);
    NatToStringValue(if n < 0 then -n else n);
    if n < 0 {
      assert IntToString(n)[1..] == d;
    } else {
      assert d[0] != '-';
    }
  }
}
