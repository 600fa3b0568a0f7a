/**
 The textual form of strings: the writer that puts a string in quotation marks, and the reader
 that finds the closing quotation mark and takes the escapes out again.
 */
module StringQuoting {

  const QUOTE: char := '\"'
  const BACKSLASH: char := '\\'

  // ----- writing -----

  function Escaped(s: string): string {
    if s == [] then []
    else (if s[0] == QUOTE then [BACKSLASH, QUOTE] else [s[0]]) + Escaped(s[1..])
  }

  function Quoted(s: string): string {
    [QUOTE] + Escaped(s) + [QUOTE]
  }

  method Write(s: string) returns (out: string)
    ensures out == Quoted(s)
  {
    out := [QUOTE];
    for i := 0 to |s|
      invariant out + Escaped(s[i..]) == [QUOTE] + Escaped(s)
    {
      assert s[i..][1..] == s[i + 1..];
      out := out + if s[i] == QUOTE then [BACKSLASH, QUOTE] else [s[i]];
    }
    out := out + [QUOTE];
  }

  // ----- reading -----

  datatype Result = Value(text: string) | ExpectedOpeningQuote | Unterminated

  // Is text[j] a quotation mark that ends a value? The character before it decides.
  predicate Closes(text: string, j: nat, needle: char) {
    1 <= j < |text| && text[j] == needle && text[j - 1] != BACKSLASH
  }

  // Where the value that opens at `pos` ends, or |text|.
  ghost predicate ClosingQuote(text: string, pos: nat, needle: char, j: nat) {
    && pos < j <= |text| && (j < |text| ==> Closes(text, j, needle))
    && forall k :: pos < k < j ==> !Closes(text, k, needle)
  }

  function Unescaped(s: string, needle: char): string {
    if |s| < 2 then s
    else if s[0] == BACKSLASH && s[1] == needle then [needle] + Unescaped(s[2..], needle)
    else [s[0]] + Unescaped(s[1..], needle)
  }

  // What reading a value that ends at j gives, and where the reader stops.
  ghost predicate ReadsTo(text: string, pos: nat, needle: char, j: nat, result: Result, end: nat) {
    && ClosingQuote(text, pos, needle, j)
    && if j == |text| then result == Unterminated && end == pos
       else result == Value(Unescaped(text[pos + 1..j], needle)) && end == j + 1
  }

  ghost predicate Reads(text: string, pos: nat, needle: char, result: Result, end: nat) {
    if pos >= |text| || text[pos] != needle then result == ExpectedOpeningQuote && end == pos
    else exists j: nat :: ReadsTo(text, pos, needle, j, result, end)
  }

  class StringReader {
    const text: string
    var pos: nat

    constructor (input: string)
      ensures text == input && pos == 0
    {
      text, pos := input, 0;
    }

    // The value at the current position; the caller makes sure that there is a character.
    method ReadValue(needle: char) returns (result: Result)
      requires pos < |text|
      modifies this
      ensures Reads(text, old(pos), needle, result, pos)
    {
      if text[pos] != needle {
        return ExpectedOpeningQuote;
      }
      var end := FindClosing(needle);
      if end == |text| {
        assert ReadsTo(text, pos, needle, end, Unterminated, pos);
        return Unterminated;
      }
      var substr := text[pos + 1..end];
      pos := end + 1;
      var tmp := Unescape(substr, needle);
      assert ReadsTo(text, old(pos), needle, end, Value(tmp), pos);
      return Value(tmp);
    }

    // adjacent_find: the first pair of neighbours whose second one closes the value.
    method FindClosing(needle: char) returns (j: nat)
      requires pos < |text|
      ensures ClosingQuote(text, pos, needle, j)
    {
      j := pos + 1;
      while j < |text| && !(text[j - 1] != BACKSLASH && text[j] == needle)
        invariant pos < j <= |text| && forall k :: pos < k < j ==> !Closes(text, k, needle)
      {
        j := j + 1;
      }
    }
  }

  lemma PlainStep(s: string, prev: nat, i: nat, needle: char)
    requires prev <= i < |s| && !(i + 1 < |s| && s[i] == BACKSLASH && s[i + 1] == needle)
    ensures s[prev..i] + Unescaped(s[i..], needle) == s[prev..i + 1] + Unescaped(s[i + 1..], needle)
  {
    assert s[i..][1..] == s[i + 1..];
    assert Unescaped(s[i..], needle) == [s[i]] + Unescaped(s[i + 1..], needle);
    assert s[prev..i + 1] == s[prev..i] + [s[i]];
  }

  // The first escape at or after `prev`, or |s|.
  method FindEscape(s: string, prev: nat, needle: char) returns (i: nat)
    requires prev <= |s|
    ensures prev <= i <= |s| && (i < |s| ==> i + 1 < |s| && s[i] == BACKSLASH && s[i + 1] == needle)
    ensures Unescaped(s[prev..], needle) == s[prev..i] + Unescaped(s[i..], needle)
  {
    i := prev;
    while i < |s| && !(i + 1 < |s| && s[i] == BACKSLASH && s[i + 1] == needle)
      invariant prev <= i <= |s| && Unescaped(s[prev..], needle) == s[prev..i] + Unescaped(s[i..], needle)
    {
      PlainStep(s, prev, i, needle);
      i := i + 1;
    }
  }

  method Unescape(s: string, needle: char) returns (tmp: string)
    ensures tmp == Unescaped(s, needle)
  {
    tmp := [];
    var prev: nat, more := 0, true;
    assert s[0..] == s;
    while more
      invariant prev <= |s| && tmp + Unescaped(s[prev..], needle) == Unescaped(s, needle)
      invariant !more ==> prev == |s|
      decreases |s| - prev + if more then 1 else 0
    {
      var i := FindEscape(s, prev, needle);
      tmp := tmp + s[prev..i];
      if i == |s| {
        prev := |s|;
      } else {
        tmp := tmp + [needle];
        assert s[i..][2..] == s[i + 2..];
        prev := i + 2;
      }
      more := prev != |s|;
    }
  }

  // ----- the round trip -----

  // Escaping puts a backslash before every quotation mark, so none of them closes the value.
  lemma {:induction false} EscapedNeverCloses(s: string, j: nat)
    requires j < |Escaped(s)| && Escaped(s)[j] == QUOTE
    ensures j > 0 && Escaped(s)[j - 1] == BACKSLASH
  {
    if s[0] == QUOTE {
      if j > 1 {
        EscapedNeverCloses(s[1..], j - 2);
      }
    } else if j > 0 {
      EscapedNeverCloses(s[1..], j - 1);
    }
  }

  lemma {:induction false} EscapedLast(s: string)
    requires s != []
    ensures |Escaped(s)| > 0 && Escaped(s)[|Escaped(s)| - 1] == s[|s| - 1]
  {
    if |s| > 1 {
      EscapedLast(s[1..]);
    } else {
      assert s[1..] == [];
    }
  }

  lemma {:induction false} UnescapedEscaped(s: string)
    ensures Unescaped(Escaped(s), QUOTE) == s
  {
    if s != [] {
      var rest := Escaped(s[1..]);
      UnescapedEscaped(s[1..]);
      if s[0] == QUOTE {
        assert Escaped(s)[2..] == rest;
      } else {
        if rest != [] && rest[0] == QUOTE {
          EscapedNeverCloses(s[1..], 0);
        }
        assert Escaped(s)[1..] == rest;
      }
    }
  }

  predicate EndsInBackslash(s: string) {
    s != [] && s[|s| - 1] == BACKSLASH
  }

  // In the quoted text, with any text around it, only the last quotation mark can close the
  // value, and it does so exactly when the string does not end in a backslash.
  lemma WhereItCloses(prefix: string, s: string, rest: string, j: nat)
    requires 1 <= j < |Quoted(s)|
    ensures Closes(prefix + Quoted(s) + rest, |prefix| + j, QUOTE) <==> j == |Quoted(s)| - 1 && !EndsInBackslash(s)
  {
    var (text, e, p) := (prefix + Quoted(s) + rest, Escaped(s), |prefix|);
    assert forall k :: 0 <= k < |e| ==> text[p + k + 1] == e[k];
    if j <= |e| {
      assert text[p + j] == e[j - 1];
      if e[j - 1] == QUOTE {
        EscapedNeverCloses(s, j - 1);
        assert text[p + j - 1] == e[j - 2];
      }
    } else if s != [] {
      EscapedLast(s);
      assert text[p + j - 1] == e[j - 2] == s[|s| - 1];
    }
  }

  // Reading back a quoted string, whatever text is before it and behind it, gives the string and
  // stops just past its closing quotation mark exactly when the string does not end in a backslash.
  lemma RoundTrip(prefix: string, s: string, rest: string, result: Result, end: nat)
    requires Reads(prefix + Quoted(s) + rest, |prefix|, QUOTE, result, end)
    ensures result == Value(s) && end == |prefix| + |Quoted(s)| <==> !EndsInBackslash(s)
  {
    var text, last := prefix + Quoted(s) + rest, |prefix| + |Quoted(s)| - 1;
    assert text[|prefix|] == QUOTE;
    var j: nat :| ReadsTo(text, |prefix|, QUOTE, j, result, end);
    WhereItCloses(prefix, s, rest, |Quoted(s)| - 1);
    if j < last {
      WhereItCloses(prefix, s, rest, j - |prefix|);
    }
    if j == last {
      assert text[|prefix| + 1..j] == Escaped(s);
      UnescapedEscaped(s);
    }
  }

  // The shortest string that does not come back.
  lemma LoneBackslash(result: Result, end: nat)
    requires Reads(Quoted([BACKSLASH]), 0, QUOTE, result, end)
    ensures result == Unterminated
  {
    var s := [BACKSLASH];
    assert s[1..] == [];
    assert Escaped(s) == s;
    assert Quoted(s) == [QUOTE, BACKSLASH, QUOTE];
  }
}
