/** The JavaScript string operations the dashboard relies on, as
    ECMAScript defines them: `trim`, `split` on a one-character separator,
    `Array.prototype.join`, `includes`, and the decimal rendering of a
    non-negative integer inside a template literal. */
module Text {

  /** The characters `String.prototype.trim` removes: ECMAScript's
      WhiteSpace (tab, vertical tab, form feed, space, no-break space,
      byte-order mark and the Unicode space separators) and LineTerminator
      (line feed, carriage return, line and paragraph separators). */
  predicate IsWhitespace(c: char) {
    || c == '\t' || c == '\n' || c == '\U{000B}' || c == '\U{000C}' || c == '\r'
    || c == ' ' || c == '\U{00A0}' || c == '\U{1680}'
    || ('\U{2000}' <= c <= '\U{200A}')
    || c == '\U{2028}' || c == '\U{2029}' || c == '\U{202F}' || c == '\U{205F}'
    || c == '\U{3000}' || c == '\U{FEFF}'
  }

  /** `s` neither starts nor ends with whitespace. */
  predicate Trimmed(s: string) {
    |s| == 0 || (!IsWhitespace(s[0]) && !IsWhitespace(s[|s| - 1]))
  }

  /** `s` with its leading whitespace removed. */
  function TrimStart(s: string): (r: string)
    ensures |r| <= |s| && r == s[|s| - |r|..]
    ensures forall k :: 0 <= k < |s| - |r| ==> IsWhitespace(s[k])
    ensures |r| == 0 || !IsWhitespace(r[0])
  {
    if |s| > 0 && IsWhitespace(s[0]) then TrimStart(s[1..]) else s
  }

  /** `s` with its trailing whitespace removed. */
  function TrimEnd(s: string): (r: string)
    ensures |r| <= |s| && r == s[..|r|]
    ensures forall k :: |r| <= k < |s| ==> IsWhitespace(s[k])
    ensures |r| == 0 || !IsWhitespace(r[|r| - 1])
  {
    if |s| > 0 && IsWhitespace(s[|s| - 1]) then TrimEnd(s[..|s| - 1]) else s
  }

  /** `String.prototype.trim`: the part of `s` left once the whitespace at
      both ends is cut away. The result is a contiguous piece of `s`, has no
      whitespace at either end, and everything cut away is whitespace. */
  function Trim(s: string): (r: string)
    ensures Trimmed(r)
    ensures exists i :: CutFrom(s, r, i)
  {
    TrimCut(s);
    TrimEnd(TrimStart(s))
  }

  /** Trimming the start and then the end cuts `s` at the length of what
      the first step removed. */
  lemma TrimCut(s: string)
    ensures CutFrom(s, TrimEnd(TrimStart(s)), |s| - |TrimStart(s)|)
  {
    var t := TrimStart(s);
    CutFromParts(s, t, TrimEnd(t), |s| - |t|);
  }

  /** Whitespace cut from the front of `s`, then from the back of what is
      left, is a cut of `s` in the sense of `CutFrom`. */
  lemma CutFromParts(s: string, t: string, r: string, i: int)
    requires 0 <= i <= |s| && t == s[i..] && forall k :: 0 <= k < i ==> IsWhitespace(s[k])
    requires |r| <= |t| && r == t[..|r|]
    requires forall k :: |r| <= k < |t| ==> IsWhitespace(t[k])
    ensures CutFrom(s, r, i)
  {
    assert r == s[i..i + |r|];
    SuffixWhitespace(s, t, |r|, i);
  }

  /** Whitespace after position `n` of the suffix of `s` from `i` is
      whitespace of `s` after position `i + n`. */
  lemma SuffixWhitespace(s: string, t: string, n: int, i: int)
    requires 0 <= i <= |s| && t == s[i..] && 0 <= n <= |t|
    requires forall k :: n <= k < |t| ==> IsWhitespace(t[k])
    ensures forall k :: i + n <= k < |s| ==> IsWhitespace(s[k])
  {
    forall k | i + n <= k < |s|
      ensures IsWhitespace(s[k])
    {
      assert s[k] == t[k - i];
    }
  }

  /** `r` is the piece of `s` starting at `i`, and everything of `s` before
      and after that piece is whitespace. */
  predicate CutFrom(s: string, r: string, i: int) {
    && 0 <= i <= |s| - |r| && r == s[i..i + |r|]
    && (forall k :: 0 <= k < i ==> IsWhitespace(s[k]))
    && (forall k :: i + |r| <= k < |s| ==> IsWhitespace(s[k]))
  }

  /** A string that has no whitespace at its ends is its own trim. */
  lemma TrimOfTrimmed(s: string)
    requires Trimmed(s)
    ensures Trim(s) == s
  {
  }

  /** A leading space never survives the trim. */
  lemma TrimLeadingSpace(s: string)
    ensures Trim(" " + s) == Trim(s)
  {
    assert (" " + s)[1..] == s;
  }

  /** The number of occurrences of `c` in `s`. */
  function Count(s: string, c: char): nat {
    if |s| == 0 then 0 else (if s[0] == c then 1 else 0) + Count(s[1..], c)
  }

  /** `Array.prototype.join(sep)`: the parts with `sep` between neighbours;
      an empty array joins to the empty string. */
  function Join(parts: seq<string>, sep: string): string {
    if |parts| == 0 then ""
    else if |parts| == 1 then parts[0]
    else parts[0] + sep + Join(parts[1..], sep)
  }

  /** `String.prototype.split(sep)` for a one-character separator: the
      pieces between consecutive separators. There is always one piece more
      than there are separators, no piece holds the separator, and joining
      the pieces back with the separator gives `s` again. */
  function Split(s: string, sep: char): (parts: seq<string>)
    ensures |parts| == Count(s, sep) + 1
    ensures forall i :: 0 <= i < |parts| ==> sep !in parts[i]
    ensures Join(parts, [sep]) == s
  {
    if |s| == 0 then [""]
    else
      var t := Split(s[1..], sep);
      assert s == [s[0]] + s[1..];
      if s[0] == sep then
        [""] + t
      else
        var r := [[s[0]] + t[0]] + t[1..];
        assert Join(r, [sep]) == s by {
          if |t| > 1 {
            assert r[1..] == t[1..];
            assert Join(t, [sep]) == t[0] + [sep] + Join(t[1..], [sep]);
            assert Join(r, [sep]) == ([s[0]] + t[0]) + [sep] + Join(t[1..], [sep]);
          }
        }
        r
  }

  /** Splitting a piece free of the separator that is followed by the
      separator yields that piece first. */
  lemma {:induction false} SplitAfterPiece(x: string, sep: char, rest: string)
    requires sep !in x
    ensures Split(x + [sep] + rest, sep) == [x] + Split(rest, sep)
    decreases |x|
  {
    var s := x + [sep] + rest;
    if |x| == 0 {
      assert s == [sep] + rest;
      assert s[1..] == rest;
    } else {
      assert s[0] == x[0] && x[0] != sep;
      assert s[1..] == x[1..] + [sep] + rest;
      SplitAfterPiece(x[1..], sep, rest);
      var t := Split(s[1..], sep);
      assert t == [x[1..]] + Split(rest, sep);
      assert Split(s, sep) == [[s[0]] + t[0]] + t[1..];
      assert [x[0]] + x[1..] == x;
    }
  }

  /** `split` undoes `join` for separator-free pieces. */
  lemma {:induction false} SplitJoin(parts: seq<string>, sep: char)
    requires |parts| >= 1
    requires forall i :: 0 <= i < |parts| ==> sep !in parts[i]
    ensures Split(Join(parts, [sep]), sep) == parts
    decreases |parts|
  {
    if |parts| == 1 {
      SplitAfterPieceEnd(parts[0], sep);
    } else {
      SplitJoin(parts[1..], sep);
      SplitAfterPiece(parts[0], sep, Join(parts[1..], [sep]));
      assert [parts[0]] + parts[1..] == parts;
    }
  }

  /** A separator-free string splits into itself alone. */
  lemma {:induction false} SplitAfterPieceEnd(x: string, sep: char)
    requires sep !in x
    ensures Split(x, sep) == [x]
    decreases |x|
  {
    if |x| > 0 {
      SplitAfterPieceEnd(x[1..], sep);
      assert [x[0]] + x[1..] == x;
    }
  }

  /** `s.includes(t)`: `t` occurs in `s` as a contiguous piece. */
  predicate Contains(s: string, t: string) {
    exists i | 0 <= i <= |s| - |t| :: OccursAt(s, t, i)
  }

  /** `t` occurs in `s` starting at index `i`. */
  predicate OccursAt(s: string, t: string, i: int) {
    0 <= i && i + |t| <= |s| && s[i..i + |t|] == t
  }

  /** Every string contains each of its prefixes. */
  lemma ContainsPrefix(t: string, rest: string)
    ensures Contains(t + rest, t)
  {
    assert OccursAt(t + rest, t, 0);
  }

  /** A string lacking the first character of `t` cannot contain `t`. */
  lemma NotContainsWithoutFirst(s: string, t: string)
    requires |t| > 0 && t[0] !in s
    ensures !Contains(s, t)
  {
    forall i | 0 <= i && i + |t| <= |s|
      ensures !OccursAt(s, t, i)
    {
      assert s[i..i + |t|][0] == s[i];
    }
  }

  /** The decimal digit for a value below ten. */
  function Digit(d: nat): (c: char)
    requires d < 10
    ensures '0' <= c <= '9' && DigitValue(c) == d
  {
    ('0' as int + d) as char
  }

  /** The value of a decimal digit character. */
  function DigitValue(c: char): nat {
    if '0' <= c <= '9' then (c as int - '0' as int) as nat else 0
  }

  /** The number a string of decimal digits denotes. */
  function DecimalValue(s: string): nat {
    if |s| == 0 then 0 else DecimalValue(s[..|s| - 1]) * 10 + DigitValue(s[|s| - 1])
  }

  /** How a template literal renders a non-negative integer: its decimal
      digits, without leading zeros, which read back as the same number. */
  function NatToString(n: nat): (r: string)
    ensures |r| >= 1
    ensures forall k :: 0 <= k < |r| ==> '0' <= r[k] <= '9'
    ensures |r| > 1 ==> r[0] != '0'
    ensures DecimalValue(r) == n
  {
    if n < 10 then [Digit(n)]
    else
      var prefix := NatToString(n / 10);
      var last := Digit(n % 10);
      var r := prefix + [last];
      assert r[..|r| - 1] == prefix && r[|r| - 1] == last;
      assert n == (n / 10) * 10 + n % 10;
      r
  }

  /** The images field parser of the product type form: the typed value is
      split on commas and every piece is trimmed. There is one URL more than
      there are commas, the i-th URL is the trimmed i-th comma-separated
      piece of the value (the pieces joined back with commas give the value
      again), and no URL has a comma or whitespace at its ends. */
  function ParseImageList(value: string): (urls: seq<string>)
    ensures |urls| == Count(value, ',') + 1
    ensures |urls| == |Split(value, ',')| && Join(Split(value, ','), [',']) == value
    ensures forall i :: 0 <= i < |urls| ==> urls[i] == Trim(Split(value, ',')[i])
    ensures forall i :: 0 <= i < |urls| ==> ',' !in urls[i] && Trimmed(urls[i])
  {
    var pieces := Split(value, ',');
    seq(|pieces|, i requires 0 <= i < |pieces| => TrimPiece(pieces[i]))
  }

  /** Trimming a comma-free piece leaves it comma-free. */
  function TrimPiece(piece: string): (r: string)
    requires ',' !in piece
    ensures r == Trim(piece) && ',' !in r
  {
    var r := Trim(piece);
    assert forall k :: 0 <= k < |r| ==> r[k] in piece;
    r
  }

  /** An empty images field parses to one empty URL, not to no URLs. */
  lemma EmptyImageField()
    ensures ParseImageList("") == [""]
  {
  }

  /** Every piece with a space in front. */
  function Spaced(parts: seq<string>): (r: seq<string>)
    ensures |r| == |parts|
    ensures forall i :: 0 <= i < |r| ==> r[i] == " " + parts[i]
  {
    seq(|parts|, i requires 0 <= i < |parts| => " " + parts[i])
  }

  /** Joining with ", " is joining with "," pieces that carry a leading
      space. */
  lemma {:induction false} JoinCommaSpace(parts: seq<string>)
    requires |parts| >= 1
    ensures " " + Join(parts, ", ") == Join(Spaced(parts), ",")
    decreases |parts|
  {
    if |parts| > 1 {
      JoinCommaSpace(parts[1..]);
      assert Spaced(parts)[1..] == Spaced(parts[1..]);
      calc {
        " " + Join(parts, ", ");
        " " + (parts[0] + ", " + Join(parts[1..], ", "));
        (" " + parts[0]) + "," + (" " + Join(parts[1..], ", "));
        (" " + parts[0]) + "," + Join(Spaced(parts[1..]), ",");
        Join(Spaced(parts), ",");
      }
    }
  }

  /** The pieces `split(",")` sees in a list joined with ", ": the first URL,
      then every later URL behind a space. */
  function JoinedPieces(urls: seq<string>): (pieces: seq<string>)
    requires |urls| >= 1
    ensures |pieces| == |urls| && pieces[0] == urls[0]
    ensures forall i :: 1 <= i < |urls| ==> pieces[i] == " " + urls[i]
  {
    [urls[0]] + Spaced(urls[1..])
  }

  /** Joining with ", " is joining the spaced pieces with ",". */
  lemma JoinAsPieces(urls: seq<string>)
    requires |urls| >= 1
    ensures Join(urls, ", ") == Join(JoinedPieces(urls), ",")
  {
    var pieces := JoinedPieces(urls);
    if |urls| > 1 {
      var tail := Join(urls[1..], ", ");
      JoinCommaSpace(urls[1..]);
      assert pieces[1..] == Spaced(urls[1..]);
      assert Join(urls, ", ") == urls[0] + ", " + tail;
      CommaSpaceRegroup(urls[0], tail);
      assert Join(pieces, ",") == pieces[0] + "," + Join(pieces[1..], ",");
    }
  }

  /** Moving the space of ", " over to the right-hand piece. */
  lemma CommaSpaceRegroup(a: string, b: string)
    ensures a + ", " + b == a + "," + (" " + b)
  {
    assert ", " == "," + " ";
  }

  /** No joined piece holds a comma when no URL does. */
  lemma PiecesCommaFree(urls: seq<string>)
    requires |urls| >= 1
    requires forall i :: 0 <= i < |urls| ==> ',' !in urls[i]
    ensures forall i :: 0 <= i < |urls| ==> ',' !in JoinedPieces(urls)[i]
  {
    var pieces := JoinedPieces(urls);
    forall i | 0 <= i < |pieces|
      ensures ',' !in pieces[i]
    {
      if i > 0 {
        assert pieces[i] == " " + urls[i];
      }
    }
  }

  /** Trimming each joined piece recovers the URL it came from. */
  lemma PiecesTrimBack(urls: seq<string>)
    requires |urls| >= 1
    requires forall i :: 0 <= i < |urls| ==> Trimmed(urls[i])
    ensures forall i :: 0 <= i < |urls| ==> Trim(JoinedPieces(urls)[i]) == urls[i]
  {
    var pieces := JoinedPieces(urls);
    forall i | 0 <= i < |urls|
      ensures Trim(pieces[i]) == urls[i]
    {
      if i > 0 {
        TrimLeadingSpace(urls[i]);
      }
      TrimOfTrimmed(urls[i]);
    }
  }

  /** The form shows the URL list joined with ", "; for URLs without commas
      or surrounding whitespace, parsing that text gives the list back. */
  lemma {:induction false} ImageListRoundTrip(urls: seq<string>)
    requires |urls| >= 1
    requires forall i :: 0 <= i < |urls| ==> ',' !in urls[i] && Trimmed(urls[i])
    ensures ParseImageList(Join(urls, ", ")) == urls
  {
    var pieces := JoinedPieces(urls);
    JoinAsPieces(urls);
    PiecesCommaFree(urls);
    SplitJoin(pieces, ',');
    PiecesTrimBack(urls);
    var parsed := ParseImageList(Join(urls, ", "));
    assert Split(Join(urls, ", "), ',') == pieces;
    assert forall i :: 0 <= i < |urls| ==> parsed[i] == Trim(pieces[i]);
  }
}
