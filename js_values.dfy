/** JavaScript value semantics the hub relies on: optional (null/undefined)
    strings, truthiness, the `a || b` default idiom, `String.prototype.trim`
    and the decimal rendering of a millisecond clock reading. */
module JsValues {

  /** A value that may be null or undefined. */
  datatype Option<+T> = None | Some(value: T)

  /** JavaScript truthiness of an optional string: null, undefined and ""
      are falsy, every other string is truthy. */
  predicate Truthy(v: Option<string>) {
    v.Some? && v.value != ""
  }

  /** `v || fallback` for an optional string and a string fallback. */
  function Or(v: Option<string>, fallback: string): (r: string)
    ensures Truthy(v) ==> r == v.value
    ensures !Truthy(v) ==> r == fallback
  {
    if Truthy(v) then v.value else fallback
  }

  /** `v || null`: keeps a truthy string, turns every falsy value into null. */
  function OrNull(v: Option<string>): (r: Option<string>)
    ensures r.None? || (r == v && r.value != "")
    ensures Truthy(v) <==> r.Some?
  {
    if Truthy(v) then v else None
  }

  /** The characters `String.prototype.trim` removes: WhiteSpace (tab, vertical
      tab, form feed, space, no-break space, the byte order mark and every
      space separator) and LineTerminator (LF, CR, U+2028, U+2029). */
  predicate IsJsWhitespace(c: char) {
    || c == '\U{0009}' || c == '\U{000A}' || c == '\U{000B}' || c == '\U{000C}'
    || c == '\U{000D}' || c == '\U{0020}' || c == '\U{00A0}' || c == '\U{1680}'
    || ('\U{2000}' <= c <= '\U{200A}')
    || c == '\U{2028}' || c == '\U{2029}' || c == '\U{202F}' || c == '\U{205F}'
    || c == '\U{3000}' || c == '\U{FEFF}'
  }

  /** `r` appears in `s` from index `k` on. The trigger needs both
      characters present, so an `r` that is `s` itself does not feed it. */
  ghost predicate OccursAt(s: string, k: nat, r: string) {
    && k + |r| <= |s|
    && forall i, j {:trigger r[i], s[j]} :: 0 <= i < |r| && j == k + i ==> r[i] == s[j]
  }

  /** Drops leading whitespace: the result is a suffix of `s`, everything
      dropped is whitespace, and the result does not start with whitespace. */
  function TrimStart(s: string): (r: string)
    ensures |r| <= |s| && OccursAt(s, |s| - |r|, r)
    ensures forall i :: 0 <= i < |s| - |r| ==> IsJsWhitespace(s[i])
    ensures r == [] || !IsJsWhitespace(r[0])
  {
    if s != [] && IsJsWhitespace(s[0]) then
      var r := TrimStart(s[1..]);
      DropOneMore(s, r);
      r
    else s
  }

  /** One leading whitespace character more: if `r` ends `s[1..]` after
      whitespace only, it also ends `s` after whitespace only. */
  lemma DropOneMore(s: string, r: string)
    requires s != [] && IsJsWhitespace(s[0])
    requires |r| <= |s| - 1 && OccursAt(s[1..], |s| - 1 - |r|, r)
    requires forall i :: 0 <= i < |s| - 1 - |r| ==> IsJsWhitespace(s[1..][i])
    ensures |r| <= |s| && OccursAt(s, |s| - |r|, r)
    ensures forall i :: 0 <= i < |s| - |r| ==> IsJsWhitespace(s[i])
  {
    forall i, j | 0 <= i < |r| && j == |s| - |r| + i
      ensures r[i] == s[j]
    {
      assert s[1..][j - 1] == s[j];
    }
    forall i | 0 < i < |s| - |r|
      ensures IsJsWhitespace(s[i])
    {
      assert s[1..][i - 1] == s[i];
    }
  }

  /** Drops trailing whitespace: the result is a prefix of `s`, everything
      dropped is whitespace, and the result does not end with whitespace. */
  function TrimEnd(s: string): (r: string)
    ensures |r| <= |s| && r == s[..|r|]
    ensures forall i :: |r| <= i < |s| ==> IsJsWhitespace(s[i])
    ensures r == [] || !IsJsWhitespace(r[|r| - 1])
  {
    if s != [] && IsJsWhitespace(s[|s| - 1]) then TrimEnd(s[..|s| - 1]) else s
  }

  /** `r` is the slice of `s` that starts at `k`, and everything of `s`
      outside that slice is whitespace. */
  ghost predicate SliceWithin(s: string, k: nat, r: string) {
    && OccursAt(s, k, r)
    && (forall i :: 0 <= i < k ==> IsJsWhitespace(s[i]))
    && (forall i :: k + |r| <= i < |s| ==> IsJsWhitespace(s[i]))
  }

  /** `s.trim()`: drops whitespace from both ends. What is left is the slice
      of `s` that starts after the leading whitespace, has whitespace on
      neither end, and has only whitespace around it. */
  function Trim(s: string): (r: string)
    ensures |r| <= |s|
    ensures r == [] || (!IsJsWhitespace(r[0]) && !IsJsWhitespace(r[|r| - 1]))
    ensures SliceWithin(s, |s| - |TrimStart(s)|, r)
  {
    var t := TrimStart(s);
    WhitespaceAround(s, t, TrimEnd(t));
    TrimEnd(t)
  }

  /** A prefix `r` of a suffix `t` of `s`, where `s` has only whitespace
      before `t` and `t` only whitespace after `r`, is a slice of `s` with
      only whitespace around it. */
  lemma WhitespaceAround(s: string, t: string, r: string)
    requires |t| <= |s| && OccursAt(s, |s| - |t|, t)
    requires forall i :: 0 <= i < |s| - |t| ==> IsJsWhitespace(s[i])
    requires |r| <= |t| && r == t[..|r|] && forall i :: |r| <= i < |t| ==> IsJsWhitespace(t[i])
    ensures SliceWithin(s, |s| - |t|, r)
  {
    var k := |s| - |t|;
    forall i, j | 0 <= i < |r| && j == k + i
      ensures r[i] == s[j]
    {
      assert r[i] == t[i] && t[i] == s[j];
    }
    forall i | k + |r| <= i < |s|
      ensures IsJsWhitespace(s[i])
    {
      assert s[i] == t[i - k];
    }
  }

  /** A trimmed string is empty exactly when the input is all whitespace,
      which is when the hub treats a status or a name as blank. */
  lemma TrimEmptyIff(s: string)
    ensures Trim(s) == [] <==> forall i :: 0 <= i < |s| ==> IsJsWhitespace(s[i])
  {
    var t := TrimStart(s);
    if Trim(s) == [] {
      assert TrimEnd(t) == [] && t == [];
    } else {
      assert |TrimEnd(t)| <= |t| && t[0] == s[|s| - |t|];
    }
  }

  function DigitChar(d: nat): (c: char)
    requires d < 10
    ensures '0' <= c <= '9'
  {
    ['0', '1', '2', '3', '4', '5', '6', '7', '8', '9'][d]
  }

  function DigitValue(c: char): nat {
    if '0' <= c <= '9' then (c - '0') as nat else 0
  }

  /** The decimal digits JavaScript prints for a non-negative integer number
      (a `Date.now()` reading), without leading zeros. */
  function Decimal(n: nat): (r: string)
    ensures |r| >= 1
    ensures forall i :: 0 <= i < |r| ==> '0' <= r[i] <= '9'
    ensures n > 0 ==> r[0] != '0'
  {
    if n < 10 then [DigitChar(n)] else Decimal(n / 10) + [DigitChar(n % 10)]
  }

  /** Reads a string of decimal digits back as a number. */
  function ParseDecimal(s: string): nat {
    if s == [] then 0 else ParseDecimal(s[..|s| - 1]) * 10 + DigitValue(s[|s| - 1])
  }

  lemma {:induction false} ParseDecimalOfDecimal(n: nat)
    ensures ParseDecimal(Decimal(n)) == n
  {
    var r := Decimal(n);
    if n < 10 {
      assert r[..|r| - 1] == [];
      assert DigitValue(DigitChar(n)) == n;
    } else {
      ParseDecimalOfDecimal(n / 10);
      assert r[..|r| - 1] == Decimal(n / 10);
      assert DigitValue(DigitChar(n % 10)) == n % 10;
    }
  }

  /** `prefix + Date.now()`: the id the server gives a new record. */
  function StampedId(prefix: string, now: nat): (id: string)
    ensures |id| > |prefix| && id[..|prefix|] == prefix
  {
    prefix + Decimal(now)
  }

  /** Two ids with the same prefix are equal exactly when they were stamped in
      the same millisecond: the server does not make ids unique. */
  lemma StampedIdsCollideIffSameMillisecond(prefix: string, t1: nat, t2: nat)
    ensures StampedId(prefix, t1) == StampedId(prefix, t2) <==> t1 == t2
  {
    if StampedId(prefix, t1) == StampedId(prefix, t2) {
      assert Decimal(t1) == StampedId(prefix, t1)[|prefix|..];
      assert Decimal(t2) == StampedId(prefix, t2)[|prefix|..];
      ParseDecimalOfDecimal(t1);
      ParseDecimalOfDecimal(t2);
    }
  }
}
