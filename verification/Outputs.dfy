/** The cap on a step's collected outputs, and the line of the frame that carries them. */
module Outputs {
  import opened Bytes
  import opened Frames

  type Text = seq<byte>

  const CAP: nat := MAX_LINE / 8

  function Ascii(s: string): (r: Text)
    ensures |r| == |s| && forall i :: 0 <= i < |r| ==> r[i] <= 0x7F
  {
    seq(|s|, i requires 0 <= i < |s| => if s[i] < '\U{80}' then s[i] as int else 0x3F)
  }

  /** An ellipsis and the note. */
  const MARKER: Text := [0xE2, 0x80, 0xA6] + Ascii("[truncated by runner]")

  // ---- Truncation at a character boundary ----

  function Truncated(s: Text, n: int): (r: Text)
    decreases n
  {
    if n <= 0 then []
    else if n >= |s| then s
    else if RuneStart(s[n]) then s[..n]
    else Truncated(s, n - 1)
  }

  method SafeTruncate(s: Text, limit: int) returns (r: Text)
    ensures r == Truncated(s, limit)
  {
    if limit <= 0 {
      return [];
    }
    if limit >= |s| {
      return s;
    }
    var n := limit;
    while n > 0 && !RuneStart(s[n])
      invariant 0 <= n <= limit
      invariant Truncated(s, n) == Truncated(s, limit)
    {
      n := n - 1;
    }
    return s[..n];
  }

  /** A prefix no longer than allowed that splits no character, and the longest such. */
  lemma {:induction false} TruncatedIsBoundaryPrefix(s: Text, n: int)
    ensures
      var m := |Truncated(s, n)|;
      && m <= |s| && Truncated(s, n) == s[..m]
      && m <= (if n < 0 then 0 else n)
      && (0 < m < |s| ==> RuneStart(s[m]))
      && (forall k :: m < k <= n && k < |s| ==> !RuneStart(s[k]))
      && (n >= |s| ==> m == |s|)
    decreases n
  {
    if 0 < n < |s| && !RuneStart(s[n]) {
      TruncatedIsBoundaryPrefix(s, n - 1);
    }
  }

  lemma TruncatedKeepsValid(s: Text, n: int)
    requires Valid(s)
    ensures Valid(Truncated(s, n))
    ensures 0 <= n < |s| ==> n - 3 <= |Truncated(s, n)|
  {
    TruncatedIsBoundaryPrefix(s, n);
    var m := |Truncated(s, n)|;
    if m > 0 {
      ValidPrefix(s, m);
    }
    if 0 <= n < |s| {
      BoundaryNear(s, n);
    }
  }

  // ---- The cap ----

  /** The value that replaces `v` when `remaining` bytes of budget are left, possibly fewer than none. */
  function Cut(v: Text, remaining: int): Text
  {
    if |v| <= remaining then v
    else if remaining - |MARKER| >= 0 then Truncated(v, remaining - |MARKER|) + MARKER
    else Truncated(v, remaining)
  }

  ghost predicate Lists(keys: seq<Text>, vals: map<Text, Text>)
  {
    && (forall i :: 0 <= i < |keys| ==> keys[i] in vals)
    && (forall k :: k in vals ==> k in keys)
    && (forall i, j :: 0 <= i < j < |keys| ==> keys[i] != keys[j])
  }

  /** The budget spent when the first `i` keys and their replacement values are packed. */
  ghost function Used(keys: seq<Text>, vals: map<Text, Text>, i: nat): nat
    requires Lists(keys, vals) && i <= |keys|
    decreases i, 0
  {
    if i == 0 then 0
    else Used(keys, vals, i - 1) + |keys[i - 1]| + |Replacement(keys, vals, i - 1)|
  }

  /** The budget left for the value of key `i`. */
  ghost function Remaining(keys: seq<Text>, vals: map<Text, Text>, i: nat): int
    requires Lists(keys, vals) && i < |keys|
    decreases i, 1
  {
    CAP - Used(keys, vals, i) - |keys[i]|
  }

  ghost function Replacement(keys: seq<Text>, vals: map<Text, Text>, i: nat): Text
    requires Lists(keys, vals) && i < |keys|
    decreases i, 2
  {
    Cut(vals[keys[i]], Remaining(keys, vals, i))
  }

  /** The keys among the first `i` whose value does not fit the budget left for it, in order. */
  ghost function Trimmed(keys: seq<Text>, vals: map<Text, Text>, i: nat): seq<Text>
    requires Lists(keys, vals) && i <= |keys|
  {
    if i == 0 then []
    else if |vals[keys[i - 1]]| <= Remaining(keys, vals, i - 1) then Trimmed(keys, vals, i - 1)
    else Trimmed(keys, vals, i - 1) + [keys[i - 1]]
  }

  /** The loop body's rewrite of one value that does not fit. */
  method Shorten(v: Text, remaining: int) returns (r: Text)
    requires |v| > remaining
    ensures r == Cut(v, remaining)
  {
    var keep := remaining - |MARKER|;
    if keep >= 0 {
      if keep > |v| {
        keep := |v|;
      }
      r := SafeTruncate(v, keep);
      r := r + MARKER;
    } else {
      r := SafeTruncate(v, remaining);
    }
  }

  /** The first `i` values replaced, the others as they were. */
  ghost predicate Rewritten(keys: seq<Text>, vals: map<Text, Text>, capped: map<Text, Text>, i: nat)
    requires Lists(keys, vals) && i <= |keys|
  {
    && capped.Keys == vals.Keys
    && (forall j :: 0 <= j < i ==> capped[keys[j]] == Replacement(keys, vals, j))
    && (forall j :: i <= j < |keys| ==> capped[keys[j]] == vals[keys[j]])
  }

  lemma RewriteOne(keys: seq<Text>, vals: map<Text, Text>, capped: map<Text, Text>, i: nat)
    requires Lists(keys, vals) && i < |keys| && Rewritten(keys, vals, capped, i)
    ensures Rewritten(keys, vals, capped[keys[i] := Replacement(keys, vals, i)], i + 1)
    ensures |vals[keys[i]]| <= Remaining(keys, vals, i) ==> Rewritten(keys, vals, capped, i + 1)
  {
  }

  /** Rewrites the values in place; `keys` lists the map in the order the source sorts it. */
  method CapOutputs(keys: seq<Text>, vals: map<Text, Text>) returns (capped: map<Text, Text>, trimmed: seq<Text>)
    requires Lists(keys, vals)
    ensures Rewritten(keys, vals, capped, |keys|)
    ensures trimmed == Trimmed(keys, vals, |keys|)
  {
    capped := vals;
    trimmed := [];
    var used := 0;
    for i := 0 to |keys|
      invariant used == Used(keys, vals, i)
      invariant Rewritten(keys, vals, capped, i)
      invariant trimmed == Trimmed(keys, vals, i)
    {
      RewriteOne(keys, vals, capped, i);
      var k := keys[i];
      used := used + |k|;
      var v := capped[k];
      var remaining := CAP - used;
      if |v| <= remaining {
        used := used + |v|;
        continue;
      }
      var shorter := Shorten(v, remaining);
      capped := capped[k := shorter];
      used := used + |shorter|;
      trimmed := trimmed + [k];
    }
  }

  // ---- What the cap guarantees ----

  /** A value is left alone or becomes a prefix of itself that splits no character, marked where there is room. */
  lemma {:induction false} CutIsPrefix(v: Text, remaining: int)
    ensures |Cut(v, remaining)| <= if remaining < 0 then 0 else remaining
    ensures Cut(v, remaining) == v <==> |v| <= remaining || (v == [] && Cut(v, remaining) == [])
    ensures exists m ::
      && 0 <= m <= |v| && (0 < m < |v| ==> RuneStart(v[m]))
      && (Cut(v, remaining) == v[..m] || Cut(v, remaining) == v[..m] + MARKER)
  {
    TruncatedIsBoundaryPrefix(v, remaining);
    TruncatedIsBoundaryPrefix(v, remaining - |MARKER|);
    if |v| <= remaining {
      assert Cut(v, remaining) == v[..|v|];
    } else {
      var t := Truncated(v, if remaining >= |MARKER| then remaining - |MARKER| else remaining);
      assert t == v[..|t|];
    }
  }

  /** No character of the value is split after `m` bytes. */
  predicate Boundary(v: Text, m: nat)
  {
    m == 0 || m == |v| || (m < |v| && RuneStart(v[m]))
  }

  /** A value that fits stays; of any other the longest part that ends between characters, with the marker wherever there is room for it. */
  lemma {:induction false} CutIsLongest(v: Text, remaining: int) returns (m: nat)
    ensures m <= |v| && Boundary(v, m)
    ensures |v| <= remaining ==> m == |v| && Cut(v, remaining) == v
    ensures |v| > remaining ==>
      var marked := remaining >= |MARKER|;
      var room := if marked then remaining - |MARKER| else remaining;
      && Cut(v, remaining) == v[..m] + (if marked then MARKER else [])
      && m <= (if room < 0 then 0 else room)
      && forall k: nat :: m < k <= room && k <= |v| ==> !Boundary(v, k)
  {
    if |v| <= remaining {
      return |v|;
    }
    var room := if remaining >= |MARKER| then remaining - |MARKER| else remaining;
    TruncatedIsBoundaryPrefix(v, room);
    m := |Truncated(v, room)|;
    hide Truncated;
  }

  lemma {:induction false} CutKeepsValid(v: Text, remaining: int)
    requires Valid(v)
    ensures Valid(Cut(v, remaining))
  {
    TruncatedKeepsValid(v, remaining);
    TruncatedKeepsValid(v, remaining - |MARKER|);
    MarkerIsValid();
    ValidAppend(Truncated(v, remaining - |MARKER|), MARKER);
  }

  lemma MarkerIsValid()
    ensures Valid(MARKER)
  {
    hide Ascii;
    var note := Ascii("[truncated by runner]");
    AsciiIsValid(note);
    assert RuneLen(MARKER) == 3 && MARKER[3..] == note;
  }

  lemma {:induction false} ValidAppend(a: Text, b: Text)
    requires Valid(a) && Valid(b)
    ensures Valid(a + b)
  {
    if a == [] {
      assert a + b == b;
    } else {
      var n := RuneLen(a);
      assert RuneLen(a + b) == n;
      assert (a + b)[n..] == a[n..] + b;
      ValidAppend(a[n..], b);
    }
  }

  ghost function KeyBytes(keys: seq<Text>, i: nat): nat
    requires i <= |keys|
  {
    if i == 0 then 0 else KeyBytes(keys, i - 1) + |keys[i - 1]|
  }

  ghost function ValueBytes(keys: seq<Text>, vals: map<Text, Text>, i: nat): nat
    requires Lists(keys, vals) && i <= |keys|
  {
    if i == 0 then 0 else ValueBytes(keys, vals, i - 1) + |vals[keys[i - 1]]|
  }

  ghost function CappedBytes(keys: seq<Text>, vals: map<Text, Text>, i: nat): nat
    requires Lists(keys, vals) && i <= |keys|
  {
    if i == 0 then 0 else CappedBytes(keys, vals, i - 1) + |Replacement(keys, vals, i - 1)|
  }

  /** The replacement values together fit the cap, and with the keys they exceed it by no more than the keys. */
  lemma {:induction false} CappedTotals(keys: seq<Text>, vals: map<Text, Text>, i: nat)
    requires Lists(keys, vals) && i <= |keys|
    ensures CappedBytes(keys, vals, i) <= CAP
    ensures Used(keys, vals, i) == KeyBytes(keys, i) + CappedBytes(keys, vals, i) <= KeyBytes(keys, i) + CAP
  {
    if i > 0 {
      CappedTotals(keys, vals, i - 1);
      CutIsPrefix(vals[keys[i - 1]], Remaining(keys, vals, i - 1));
    }
  }

  /** Nothing is trimmed exactly if everything fits as it is. */
  lemma {:induction false} TrimsIffTooLarge(keys: seq<Text>, vals: map<Text, Text>, i: nat)
    requires Lists(keys, vals) && i <= |keys|
    ensures Trimmed(keys, vals, i) == [] <==> KeyBytes(keys, i) + ValueBytes(keys, vals, i) <= CAP
    ensures Trimmed(keys, vals, i) == [] ==> Used(keys, vals, i) == KeyBytes(keys, i) + ValueBytes(keys, vals, i)
  {
    if i > 0 {
      TrimsIffTooLarge(keys, vals, i - 1);
      UsedGrows(keys, vals, i);
    }
  }

  /** A step takes the key and at most the value off the budget. */
  lemma UsedGrows(keys: seq<Text>, vals: map<Text, Text>, i: nat)
    requires Lists(keys, vals) && 0 < i <= |keys|
    ensures
      var used, left := Used(keys, vals, i), Remaining(keys, vals, i - 1);
      && left == CAP - Used(keys, vals, i - 1) - |keys[i - 1]|
      && CAP - left <= used && (used <= CAP <==> left >= 0)
      && (|vals[keys[i - 1]]| <= left ==> used == CAP - left + |vals[keys[i - 1]]|)
  {
    CutIsPrefix(vals[keys[i - 1]], Remaining(keys, vals, i - 1));
  }

  /** Every key among the first `i` was reached with room for itself. */
  ghost predicate KeysFit(keys: seq<Text>, vals: map<Text, Text>, i: nat)
    requires Lists(keys, vals) && i <= |keys|
  {
    forall j :: 0 <= j < i ==> Remaining(keys, vals, j) >= 0
  }

  /** Keys and values together stay under the cap exactly if no key is reached with its own length over budget. */
  lemma {:induction false} AggregateCappedIffKeysFit(keys: seq<Text>, vals: map<Text, Text>, i: nat)
    requires Lists(keys, vals) && i <= |keys|
    ensures Used(keys, vals, i) <= CAP <==> KeysFit(keys, vals, i)
  {
    if i > 0 {
      AggregateCappedIffKeysFit(keys, vals, i - 1);
      UsedGrows(keys, vals, i);
      assert KeysFit(keys, vals, i) <==> KeysFit(keys, vals, i - 1) && Remaining(keys, vals, i - 1) >= 0;
    }
  }

  /** By lengths alone: all the keys, and all the values but the last, fit the cap as they are. */
  ghost predicate FitsButLast(keys: seq<Text>, vals: map<Text, Text>)
    requires Lists(keys, vals)
  {
    keys == [] || KeyBytes(keys, |keys|) + ValueBytes(keys, vals, |keys| - 1) <= CAP
  }

  /** A valid value that is cut leaves at most three bytes of its budget unused. */
  lemma CutFills(v: Text, remaining: int)
    requires Valid(v) && |v| > remaining >= 0
    ensures remaining - 3 <= |Cut(v, remaining)|
  {
    hide Valid, Truncated, Ascii;
    TruncatedKeepsValid(v, remaining);
    TruncatedKeepsValid(v, remaining - |MARKER|);
  }

  /** From the first value that is cut on the budget is spent, but for three bytes. */
  lemma {:induction false} SpentOnceTrimmed(keys: seq<Text>, vals: map<Text, Text>, i: nat)
    requires Lists(keys, vals) && i <= |keys| && Trimmed(keys, vals, i) != []
    requires forall k :: k in vals ==> Valid(vals[k])
    ensures Used(keys, vals, i) >= CAP - 3
  {
    var v, left := vals[keys[i - 1]], Remaining(keys, vals, i - 1);
    if |v| <= left || Trimmed(keys, vals, i - 1) != [] {
      SpentOnceTrimmed(keys, vals, i - 1);
    } else if left >= 0 {
      CutFills(v, left);
    }
  }

  /**
   The flat cap by lengths: it holds if all keys and all values but the last fit it as they are. For
   values in UTF-8 and keys longer than three bytes it holds only then.
   */
  lemma {:induction false} AggregateCappedByLengths(keys: seq<Text>, vals: map<Text, Text>)
    requires Lists(keys, vals)
    ensures FitsButLast(keys, vals) ==> Used(keys, vals, |keys|) <= CAP
    ensures
      (forall k :: k in vals ==> |k| > 3 && Valid(vals[k])) ==>
        (Used(keys, vals, |keys|) <= CAP <==> FitsButLast(keys, vals))
  {
    if keys != [] {
      var n := |keys| - 1;
      TrimsIffTooLarge(keys, vals, n);
      UsedGrows(keys, vals, n + 1);
      if Trimmed(keys, vals, n) != [] && (forall k :: k in vals ==> |k| > 3 && Valid(vals[k])) {
        SpentOnceTrimmed(keys, vals, n);
        assert |keys[n]| > 3;
      }
    }
  }

  /** The flat cap that the source announces does fail: one over-long key is enough. */
  lemma {:induction false} OneLongKeyBreaksTheFlatCap(key: Text, v: Text)
    requires |key| == CAP + 1
    ensures Lists([key], map[key := v]) && Used([key], map[key := v], 1) == CAP + 1
  {
    var keys, vals := [key], map[key := v];
    assert Lists(keys, vals);
    CutIsPrefix(v, Remaining(keys, vals, 0));
    assert Used(keys, vals, 0) == 0;
  }

  // ---- The line ----

  /** The members of the `values` object: quotes, colon and comma around each pair. */
  ghost function MembersLen(keys: seq<Text>, vals: map<Text, Text>, i: nat): nat
    requires Lists(keys, vals) && i <= |keys|
  {
    if i == 0 then 0
    else MembersLen(keys, vals, i - 1) + JsonLen(keys[i - 1]) + JsonLen(Replacement(keys, vals, i - 1)) + |"\"\":\"\","|
  }

  ghost function OutputLineLen(keys: seq<Text>, vals: map<Text, Text>): nat
    requires Lists(keys, vals)
  {
    |"{\"type\":\"output\",\"output\":{\"values\":{"| + MembersLen(keys, vals, |keys|) + |"}}}"| + 1
  }

  lemma {:induction false} MembersLenBound(keys: seq<Text>, vals: map<Text, Text>, i: nat)
    requires Lists(keys, vals) && i <= |keys|
    requires forall k :: k in vals ==> k != []
    ensures MembersLen(keys, vals, i) <= 6 * CappedBytes(keys, vals, i) + 12 * KeyBytes(keys, i)
  {
    if i > 0 {
      MembersLenBound(keys, vals, i - 1);
      JsonLenBound(keys[i - 1]);
      JsonLenBound(Replacement(keys, vals, i - 1));
    }
  }

  /** With at most 20000 bytes of keys, none of them empty, the output frame fits one line. */
  lemma {:induction false} OutputFitsALine(keys: seq<Text>, vals: map<Text, Text>)
    requires Lists(keys, vals) && KeyBytes(keys, |keys|) <= 20000
    requires forall k :: k in vals ==> k != []
    ensures OutputLineLen(keys, vals) <= MAX_LINE
  {
    MembersLenBound(keys, vals, |keys|);
    CappedTotals(keys, vals, |keys|);
  }
}
