/** String helpers shared by the pages: JavaScript's `split` on a one-character
    separator and `join`, the avatar initials expression
    `name.split(' ').map(n => n[0]).join('')`, and the decimal rendering of a
    number inside a template literal. */
module Text {

  /** `s.split([sep])`: the maximal separator-free pieces, always at least one. */
  function Split(s: string, sep: char): (parts: seq<string>)
    ensures |parts| >= 1
    ensures forall i :: 0 <= i < |parts| ==> sep !in parts[i]
    decreases |s|
  {
    if s == [] then [""]
    else
      var rest := Split(s[1..], sep);
      if s[0] == sep then [""] + rest
      else [[s[0]] + rest[0]] + rest[1..]
  }

  /** `parts.join([sep])`; an empty array joins to the empty string. */
  function Join(parts: seq<string>, sep: char): string
    decreases |parts|
  {
    if parts == [] then ""
    else if |parts| == 1 then parts[0]
    else parts[0] + [sep] + Join(parts[1..], sep)
  }

  /** Joining the pieces with the separator gives back the split string. */
  lemma {:induction false} JoinSplit(s: string, sep: char)
    ensures Join(Split(s, sep), sep) == s
    decreases |s|
  {
    if s != [] {
      var rest := Split(s[1..], sep);
      JoinSplit(s[1..], sep);
      if s[0] == sep {
        assert Split(s, sep) == [""] + rest;
        assert ([""] + rest)[1..] == rest;
      } else {
        var parts := Split(s, sep);
        assert parts == [[s[0]] + rest[0]] + rest[1..];
        if |rest| == 1 {
          assert parts == [[s[0]] + rest[0]];
        } else {
          assert parts[1..] == rest[1..];
          assert Join(rest, sep) == rest[0] + [sep] + Join(rest[1..], sep);
        }
        assert s == [s[0]] + s[1..];
      }
    }
  }

  /** Splitting at a separator between `a` and `b` splits the two halves. */
  lemma {:induction false} SplitAround(a: string, sep: char, b: string)
    ensures Split(a + [sep] + b, sep) == Split(a, sep) + Split(b, sep)
    decreases |a|
  {
    var s := a + [sep] + b;
    if a == [] {
      assert s == [sep] + b;
      assert s[1..] == b;
    } else {
      assert s[0] == a[0];
      assert s[1..] == a[1..] + [sep] + b;
      SplitAround(a[1..], sep, b);
    }
  }

  /** Splitting a joined list of separator-free pieces recovers the pieces. */
  lemma {:induction false} SplitJoin(parts: seq<string>, sep: char)
    requires |parts| >= 1
    requires forall i :: 0 <= i < |parts| ==> sep !in parts[i]
    ensures Split(Join(parts, sep), sep) == parts
    decreases |parts|
  {
    if |parts| == 1 {
      SplitWithoutSeparator(parts[0], sep);
    } else {
      SplitJoin(parts[1..], sep);
      SplitAround(parts[0], sep, Join(parts[1..], sep));
      SplitWithoutSeparator(parts[0], sep);
      assert parts == [parts[0]] + parts[1..];
    }
  }

  /** A string without the separator is a single piece. */
  lemma {:induction false} SplitWithoutSeparator(s: string, sep: char)
    requires sep !in s
    ensures Split(s, sep) == [s]
    decreases |s|
  {
    if s != [] {
      assert sep !in s[1..] by {
        forall i | 0 <= i < |s[1..]| ensures s[1..][i] != sep {
          assert s[1..][i] == s[i + 1];
        }
      }
      SplitWithoutSeparator(s[1..], sep);
      assert s == [s[0]] + s[1..];
    }
  }

  /** The text before the first `sep`, or all of `s` if there is none. */
  function Before(s: string, sep: char): (r: string)
    ensures r <= s && sep !in r
    ensures |r| < |s| ==> s[|r|] == sep
    decreases |s|
  {
    if s == [] || s[0] == sep then "" else [s[0]] + Before(s[1..], sep)
  }

  /** `s.split(sep)[0]` is the text before the first separator. */
  lemma {:induction false} SplitFirstPiece(s: string, sep: char)
    ensures Split(s, sep)[0] == Before(s, sep)
    decreases |s|
  {
    if s != [] && s[0] != sep {
      SplitFirstPiece(s[1..], sep);
    }
  }

  /** `n[0]` for each piece, joined with `''`: the first character of a
      non-empty piece; an empty piece gives `undefined`, which `join` writes
      as nothing. */
  function FirstChars(pieces: seq<string>): string
    decreases |pieces|
  {
    if pieces == [] then ""
    else (if pieces[0] == "" then "" else [pieces[0][0]]) + FirstChars(pieces[1..])
  }

  /** The avatar fallback `name.split(' ').map(n => n[0]).join('')`: it
      never contains a space and has at most one character per piece. */
  function Initials(name: string): (r: string)
    ensures ' ' !in r
    ensures |r| <= |Split(name, ' ')|
  {
    FirstCharsBound(Split(name, ' '), ' ');
    FirstChars(Split(name, ' '))
  }

  lemma {:induction false} FirstCharsAppend(a: seq<string>, b: seq<string>)
    ensures FirstChars(a + b) == FirstChars(a) + FirstChars(b)
    decreases |a|
  {
    if a == [] {
      assert a + b == b;
    } else {
      assert (a + b)[0] == a[0];
      assert (a + b)[1..] == a[1..] + b;
      FirstCharsAppend(a[1..], b);
    }
  }

  lemma {:induction false} FirstCharsBound(pieces: seq<string>, c: char)
    requires forall i :: 0 <= i < |pieces| ==> c !in pieces[i]
    ensures c !in FirstChars(pieces)
    ensures |FirstChars(pieces)| <= |pieces|
    decreases |pieces|
  {
    if pieces != [] {
      FirstCharsBound(pieces[1..], c);
    }
  }

  /** A single word contributes exactly its first character. */
  lemma InitialsOfWord(word: string)
    requires word != "" && ' ' !in word
    ensures Initials(word) == [word[0]]
  {
    SplitWithoutSeparator(word, ' ');
    assert [word][1..] == [];
    calc {
      Initials(word);
      FirstChars([word]);
      [word[0]] + FirstChars([]);
    }
  }

  /** The initials of two space-separated names are the two initials in turn. */
  lemma InitialsAround(a: string, b: string)
    ensures Initials(a + " " + b) == Initials(a) + Initials(b)
  {
    SplitAround(a, ' ', b);
    FirstCharsAppend(Split(a, ' '), Split(b, ' '));
  }

  /** A doubled space adds nothing. */
  lemma InitialsIgnoreExtraSpaces(a: string, b: string)
    ensures Initials(a + "  " + b) == Initials(a) + Initials(b)
  {
    assert a + "  " + b == a + " " + (" " + b);
    InitialsAround(a, " " + b);
    InitialsIgnoreLeadingSpace(b);
  }

  /** A leading space adds nothing. */
  lemma InitialsIgnoreLeadingSpace(a: string)
    ensures Initials(" " + a) == Initials(a)
  {
    InitialsAround("", a);
    assert "" + " " + a == " " + a;
  }

  /** The initials of `first last`, two single words, are their two first
      letters. */
  lemma InitialsOfTwoWords(first: string, last: string)
    requires first != "" && ' ' !in first && last != "" && ' ' !in last
    ensures Initials(first + " " + last) == [first[0], last[0]]
  {
    InitialsOfWord(first);
    InitialsOfWord(last);
    InitialsAround(first, last);
  }

  lemma InitialsOfFullName()
    ensures Initials("Alex Johnson") == "AJ"
  {
    var first, last := "Alex", "Johnson";
    assert "Alex Johnson" == first + " " + last;
    assert ' ' !in first && ' ' !in last;
    InitialsOfWord(first);
    InitialsOfWord(last);
    InitialsAround(first, last);
  }

  predicate IsDigit(c: char)
  {
    '0' <= c <= '9'
  }

  function DigitChar(d: nat): (c: char)
    requires d < 10
    ensures IsDigit(c)
  {
    ('0' as int + d) as char
  }

  function DigitValue(c: char): (d: nat)
    requires IsDigit(c)
    ensures d < 10
  {
    (c as int - '0' as int) as nat
  }

  /** A number in its canonical decimal form: digits only, no leading zero. */
  ghost predicate Canonical(s: string)
  {
    && s != []
    && (forall i :: 0 <= i < |s| ==> IsDigit(s[i]))
    && (|s| > 1 ==> s[0] != '0')
  }

  /** How `${n}` renders a non-negative integer. */
  function DecimalString(n: nat): (s: string)
    ensures Canonical(s)
    decreases n
  {
    if n < 10 then [DigitChar(n)]
    else
      var init := DecimalString(n / 10);
      init + [DigitChar(n % 10)]
  }

  /** The value of a string of digits. */
  function DecimalValue(s: string): nat
    requires forall i :: 0 <= i < |s| ==> IsDigit(s[i])
    decreases |s|
  {
    if s == [] then 0
    else DecimalValue(s[..|s| - 1]) * 10 + DigitValue(s[|s| - 1])
  }

  /** Reading back a rendered number gives the number. */
  lemma {:induction false} DecimalRoundTrip(n: nat)
    ensures DecimalValue(DecimalString(n)) == n
    decreases n
  {
    var s := DecimalString(n);
    if n >= 10 {
      DecimalRoundTrip(n / 10);
      assert s[..|s| - 1] == DecimalString(n / 10);
    }
  }

  lemma {:induction false} DecimalValuePositive(s: string)
    requires Canonical(s) && s[0] != '0'
    ensures DecimalValue(s) > 0
    decreases |s|
  {
    if |s| > 1 {
      var init := s[..|s| - 1];
      assert init[0] == s[0];
      DecimalValuePositive(init);
    }
  }

  /** Rendering the value of a canonical digit string gives the string back. */
  lemma {:induction false} DecimalStringOfValue(s: string)
    requires Canonical(s)
    ensures DecimalString(DecimalValue(s)) == s
    decreases |s|
  {
    if |s| > 1 {
      var init := s[..|s| - 1];
      assert init[0] == s[0];
      DecimalValuePositive(init);
      DecimalStringOfValue(init);
      var n := DecimalValue(s);
      assert n / 10 == DecimalValue(init) && n % 10 == DigitValue(s[|s| - 1]);
      assert s == init + [s[|s| - 1]];
    }
  }
}
