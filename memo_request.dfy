/** The input sanitisers of the daily-agent module: the `memo` field
    validator of `MemoRequest` (`handle_swagger_newlines`) and the narrower
    clean-up the ad-hoc `test_agent` entry point applies to its argument. */
module MemoRequest {
  import opened Text

  /** The validator's regular-expression class `[\x00-\x1f\x7f-\x9f]`: the
      C0 controls, DEL and the C1 controls. */
  predicate IsValidatorControl(c: char)
  {
    c <= '\U{1F}' || ('\U{7F}' <= c <= '\U{9F}')
  }

  /** The test entry point's class `[\x00-\x1F\x7F]`: the C0 controls and DEL. */
  predicate IsTestControl(c: char)
  {
    c <= '\U{1F}' || c == '\U{7F}'
  }

  /** The raw value handed to a `mode='before'` validator: a `str`, or any
      other value, which the validator passes on untouched. */
  datatype FieldValue<V> = Str(text: string) | NotStr(value: V)

  /** The three chained `.replace` calls: CR LF, then LF, then CR become a space. */
  function ReplaceLineBreaks(s: string): (r: string)
    ensures '\r' !in r && '\n' !in r
  {
    var once := Replace(s, "\r\n", " ");
    var twice := Replace(once, "\n", " ");
    ReplaceRemovesChar(once, '\n', " ");
    ReplaceKeepsAbsent(twice, "\r", " ", '\n');
    ReplaceRemovesChar(twice, '\r', " ");
    Replace(twice, "\r", " ")
  }

  /** A one-pass reading of the three replacements: scanning left to right,
      a CR LF pair, a lone CR and a lone LF each become one space and every
      other character is copied. */
  function BreaksToSpaces(s: string): string
    decreases |s|
  {
    if s == [] then [] else FrontImage(s) + BreaksToSpaces(s[FrontWidth(s)..])
  }

  /** How many characters the one-pass reading consumes at the front of `s`:
      two for a CR LF pair, one otherwise. */
  function FrontWidth(s: string): (k: nat)
    requires s != []
    ensures 1 <= k <= |s|
  {
    if |s| >= 2 && s[0] == '\r' && s[1] == '\n' then 2 else 1
  }

  /** What the one-pass reading writes for the front of `s`. */
  function FrontImage(s: string): string
    requires s != []
  {
    if FrontWidth(s) == 2 || s[0] == '\r' || s[0] == '\n' then " " else [s[0]]
  }

  /** The chained replacements and the one-pass reading agree on every string. */
  lemma {:induction false} ReplaceLineBreaksOnePass(s: string)
    ensures ReplaceLineBreaks(s) == BreaksToSpaces(s)
    decreases |s|
  {
    if s == [] {
    } else if |s| >= 2 && s[0] == '\r' && s[1] == '\n' {
      ReplaceLineBreaksOnePass(s[2..]);
      assert s == "\r\n" + s[2..];
      CrLfStep(s[2..]);
    } else {
      ReplaceLineBreaksOnePass(s[1..]);
      assert s == [s[0]] + s[1..];
      SingleStep(s[0], s[1..]);
    }
  }

  /** A leading CR LF pair becomes one space and the rest is replaced alone. */
  lemma CrLfStep(w: string)
    ensures ReplaceLineBreaks("\r\n" + w) == " " + ReplaceLineBreaks(w)
  {
    var once := Replace(w, "\r\n", " ");
    ReplaceHits(w, "\r\n", " ");
    ReplaceStep(' ', once, "\n", " ");
    ReplaceStep(' ', Replace(once, "\n", " "), "\r", " ");
  }

  /** A leading character that does not start a CR LF pair becomes a space
      if it is a CR or an LF and is copied otherwise. */
  lemma SingleStep(c: char, w: string)
    requires !(c == '\r' && w != [] && w[0] == '\n')
    ensures ReplaceLineBreaks([c] + w)
      == (if c == '\r' || c == '\n' then " " else [c]) + ReplaceLineBreaks(w)
  {
    var s := [c] + w;
    if |s| >= 2 {
      assert s[..2] == [c, w[0]];
    }
    ReplaceMissesFront(s, "\r\n", " ");
    assert s[1..] == w;
    var once := Replace(w, "\r\n", " ");
    if c == '\n' {
      ReplaceHits(once, "\n", " ");
      ReplaceStep(' ', Replace(once, "\n", " "), "\r", " ");
    } else {
      ReplaceStep(c, once, "\n", " ");
      if c == '\r' {
        ReplaceHits(Replace(once, "\n", " "), "\r", " ");
      } else {
        ReplaceStep(c, Replace(once, "\n", " "), "\r", " ");
      }
    }
  }

  /** The one-pass reading splits at any point that does not fall inside a
      CR LF pair. */
  lemma {:induction false} BreaksToSpacesAppend(x: string, z: string)
    requires x == [] || x[|x| - 1] != '\r'
    ensures BreaksToSpaces(x + z) == BreaksToSpaces(x) + BreaksToSpaces(z)
    decreases |x|
  {
    if x == [] {
      assert x + z == z;
    } else {
      var rest := x[FrontWidth(x)..];
      assert rest == [] || rest[|rest| - 1] == x[|x| - 1];
      BreaksToSpacesAppend(rest, z);
      AppendStep(x, z);
    }
  }

  /** The step of `BreaksToSpacesAppend`: if the split holds after the front
      of `x`, it holds for `x`. */
  lemma AppendStep(x: string, z: string)
    requires x != [] && x[|x| - 1] != '\r'
    requires BreaksToSpaces(x[FrontWidth(x)..] + z)
      == BreaksToSpaces(x[FrontWidth(x)..]) + BreaksToSpaces(z)
    ensures BreaksToSpaces(x + z) == BreaksToSpaces(x) + BreaksToSpaces(z)
  {
    var rest := x[FrontWidth(x)..];
    FrontSplit(x, z);
    assert FrontImage(x) + (BreaksToSpaces(rest) + BreaksToSpaces(z))
      == (FrontImage(x) + BreaksToSpaces(rest)) + BreaksToSpaces(z);
  }

  /** Reading `x + z` starts with reading the front of `x`. */
  lemma FrontSplit(x: string, z: string)
    requires x != [] && x[|x| - 1] != '\r'
    ensures BreaksToSpaces(x + z) == FrontImage(x) + BreaksToSpaces(x[FrontWidth(x)..] + z)
  {
    FrontIgnoresTail(x, z);
    assert (x + z)[FrontWidth(x)..] == x[FrontWidth(x)..] + z;
  }

  /** The front of a string that does not end in CR is read the same way
      whatever is appended to it. */
  lemma FrontIgnoresTail(x: string, z: string)
    requires x != [] && x[|x| - 1] != '\r'
    ensures FrontWidth(x + z) == FrontWidth(x)
    ensures FrontImage(x + z) == FrontImage(x)
  {
    assert (x + z)[0] == x[0];
    if |x| >= 2 {
      assert (x + z)[1] == x[1];
    }
  }

  /** Every line break, LF, CR LF or a CR not followed by LF, becomes exactly
      one space between the replaced texts on either side of it. */
  lemma LineBreakSplit(x: string, y: string)
    requires x == [] || x[|x| - 1] != '\r'
    ensures ReplaceLineBreaks(x + "\n" + y)
      == ReplaceLineBreaks(x) + " " + ReplaceLineBreaks(y)
    ensures ReplaceLineBreaks(x + "\r\n" + y)
      == ReplaceLineBreaks(x) + " " + ReplaceLineBreaks(y)
    ensures (y == [] || y[0] != '\n') ==>
      ReplaceLineBreaks(x + "\r" + y) == ReplaceLineBreaks(x) + " " + ReplaceLineBreaks(y)
  {
    assert ("\n" + y)[1..] == y;
    SplitAround(x, "\n", y);
    assert ("\r\n" + y)[2..] == y;
    SplitAround(x, "\r\n", y);
    if y == [] || y[0] != '\n' {
      assert ("\r" + y)[1..] == y;
      SplitAround(x, "\r", y);
    }
  }

  /** A separator that the one-pass reading turns into one space splits the
      replaced text at that point. */
  lemma SplitAround(x: string, sep: string, y: string)
    requires x == [] || x[|x| - 1] != '\r'
    requires BreaksToSpaces(sep + y) == " " + BreaksToSpaces(y)
    ensures ReplaceLineBreaks(x + sep + y)
      == ReplaceLineBreaks(x) + " " + ReplaceLineBreaks(y)
  {
    BreaksAround(x, sep, y);
    ReplaceLineBreaksOnePass(x);
    ReplaceLineBreaksOnePass(y);
    ReplaceLineBreaksOnePass(x + sep + y);
  }

  /** The same split for the one-pass reading. */
  lemma BreaksAround(x: string, sep: string, y: string)
    requires x == [] || x[|x| - 1] != '\r'
    requires BreaksToSpaces(sep + y) == " " + BreaksToSpaces(y)
    ensures BreaksToSpaces(x + sep + y) == BreaksToSpaces(x) + " " + BreaksToSpaces(y)
  {
    assert x + sep + y == x + (sep + y);
    BreaksToSpacesAppend(x, sep + y);
  }

  /** Once the control characters are gone there is no CR or LF left, so the
      three replacements never match and change nothing. */
  lemma LineBreaksAbsent(s: string)
    requires forall i :: 0 <= i < |s| ==> !IsValidatorControl(s[i])
    ensures ReplaceLineBreaks(s) == s
  {
    assert '\r' !in s && '\n' !in s;
    ReplaceAbsent(s, "\r\n", " ");
    ReplaceAbsent(s, "\n", " ");
    ReplaceAbsent(s, "\r", " ");
  }

  /** The string branch of the validator: delete the control characters,
      replace the line breaks, strip. The result is the control-free text
      with its surrounding whitespace removed and nothing else changed. */
  function CleanMemo(s: string): (r: string)
    ensures Stripped(r)
    ensures forall i :: 0 <= i < |r| ==> !IsValidatorControl(r[i])
    ensures exists a :: SpaceMargins(RemoveAll(s, IsValidatorControl), r, a)
  {
    var removed := RemoveAll(s, IsValidatorControl);
    var replaced := ReplaceLineBreaks(removed);
    LineBreaksAbsent(removed);
    assert replaced == removed;
    Strip(replaced)
  }

  /** `MemoRequest.handle_swagger_newlines`: strings are cleaned, anything
      else is returned as it came. */
  function HandleSwaggerNewlines<V>(v: FieldValue<V>): (r: FieldValue<V>)
    ensures v.NotStr? ==> r == v
    ensures v.Str? ==> r.Str? && Stripped(r.text)
    ensures v.Str? ==> forall i :: 0 <= i < |r.text| ==> !IsValidatorControl(r.text[i])
    ensures v.Str? ==> exists a :: SpaceMargins(RemoveAll(v.text, IsValidatorControl), r.text, a)
  {
    match v
    case Str(text) => Str(CleanMemo(text))
    case NotStr(_) => v
  }

  /** Running the validator on its own output changes nothing. */
  lemma HandleSwaggerNewlinesIdempotent<V>(v: FieldValue<V>)
    ensures HandleSwaggerNewlines(HandleSwaggerNewlines(v)) == HandleSwaggerNewlines(v)
  {
    if v.Str? {
      var once := CleanMemo(v.text);
      assert RemoveAll(once, IsValidatorControl) == once;
      LineBreaksAbsent(once);
      StripStripped(once);
    }
  }

  /** As written, a line break between two words is deleted together with
      the other control characters, so the words are joined. */
  lemma NewlineJoinsWords(x: string, y: string)
    requires forall i :: 0 <= i < |x| ==> !IsValidatorControl(x[i])
    requires forall i :: 0 <= i < |y| ==> !IsValidatorControl(y[i])
    ensures CleanMemo(x + "\n" + y) == Strip(x + y)
    ensures CleanMemo(x + "\r\n" + y) == Strip(x + y)
  {
    RemoveAllAppend(x + "\n", y, IsValidatorControl);
    RemoveAllAppend(x, "\n", IsValidatorControl);
    RemoveAllAppend(x + "\r\n", y, IsValidatorControl);
    RemoveAllAppend(x, "\r\n", IsValidatorControl);
    assert RemoveAll("\r\n", IsValidatorControl) == [] by {
      assert "\r\n"[1..] == "\n";
    }
    assert x + [] == x;
    LineBreaksAbsent(x + y);
  }

  /** The evidently intended validator: replace the line breaks by spaces
      first, then delete the remaining control characters, then strip. */
  function CleanMemoIntended(s: string): (r: string)
    ensures Stripped(r)
    ensures forall i :: 0 <= i < |r| ==> !IsValidatorControl(r[i])
    ensures exists a :: SpaceMargins(RemoveAll(ReplaceLineBreaks(s), IsValidatorControl), r, a)
  {
    Strip(RemoveAll(ReplaceLineBreaks(s), IsValidatorControl))
  }

  /** LF between two control-free strings: untouched by the CR LF pass,
      replaced by the LF pass, and the CR pass finds nothing. */
  lemma ReplaceLineBreaksLF(x: string, y: string)
    requires '\r' !in x && '\n' !in x && '\r' !in y && '\n' !in y
    ensures ReplaceLineBreaks(x + "\n" + y) == x + " " + y
  {
    assert x + "\n" + y == x + ("\n" + y);
    ReplaceSkips(x, "\n" + y, "\r\n", " ");
    ReplaceAbsent("\n" + y, "\r\n", " ");
    ReplaceSkips(x, "\n" + y, "\n", " ");
    ReplaceHits(y, "\n", " ");
    ReplaceAbsent(y, "\n", " ");
    assert x + (" " + y) == x + " " + y;
    ReplaceAbsent(x + " " + y, "\r", " ");
  }

  /** CR LF between two control-free strings: replaced by the CR LF pass,
      after which the LF and CR passes find nothing. */
  lemma ReplaceLineBreaksCRLF(x: string, y: string)
    requires '\r' !in x && '\n' !in x && '\r' !in y && '\n' !in y
    ensures ReplaceLineBreaks(x + "\r\n" + y) == x + " " + y
  {
    assert x + "\r\n" + y == x + ("\r\n" + y);
    ReplaceSkips(x, "\r\n" + y, "\r\n", " ");
    ReplaceHits(y, "\r\n", " ");
    ReplaceAbsent(y, "\r\n", " ");
    assert x + (" " + y) == x + " " + y;
    ReplaceAbsent(x + " " + y, "\n", " ");
    ReplaceAbsent(x + " " + y, "\r", " ");
  }

  /** With the intended order a line break (LF or CR LF) between two words
      becomes a single space. */
  lemma IntendedNewlineSeparatesWords(x: string, y: string)
    requires forall i :: 0 <= i < |x| ==> !IsValidatorControl(x[i])
    requires forall i :: 0 <= i < |y| ==> !IsValidatorControl(y[i])
    ensures CleanMemoIntended(x + "\n" + y) == Strip(x + " " + y)
    ensures CleanMemoIntended(x + "\r\n" + y) == Strip(x + " " + y)
  {
    assert '\r' !in x && '\n' !in x && '\r' !in y && '\n' !in y;
    ReplaceLineBreaksLF(x, y);
    ReplaceLineBreaksCRLF(x, y);
    var joined := x + " " + y;
    assert forall i :: 0 <= i < |joined| ==> !IsValidatorControl(joined[i]) by {
      forall i | 0 <= i < |joined| ensures !IsValidatorControl(joined[i]) {
        if i < |x| { assert joined[i] == x[i]; }
        else if i > |x| { assert joined[i] == y[i - |x| - 1]; }
      }
    }
    assert RemoveAll(joined, IsValidatorControl) == joined;
  }

  /** The clean-up of `test_agent`: delete the C0 controls and DEL, then strip. */
  function CleanTestInput(s: string): (r: string)
    ensures Stripped(r)
    ensures forall i :: 0 <= i < |r| ==> !IsTestControl(r[i])
    ensures exists a :: SpaceMargins(RemoveAll(s, IsTestControl), r, a)
  {
    Strip(RemoveAll(s, IsTestControl))
  }

  /** The test clean-up is idempotent too. */
  lemma CleanTestInputIdempotent(s: string)
    ensures CleanTestInput(CleanTestInput(s)) == CleanTestInput(s)
  {
    var once := CleanTestInput(s);
    assert RemoveAll(once, IsTestControl) == once;
    StripStripped(once);
  }

  /** The two classes differ on the C1 controls 0x80-0x9F: between two
      visible characters the test clean-up keeps one, the validator deletes it. */
  lemma C1ControlsKeptOnlyByTestCleanUp(a: char, c: char, b: char)
    requires !IsSpace(a) && !IsValidatorControl(a)
    requires !IsSpace(b) && !IsValidatorControl(b)
    requires '\U{80}' <= c <= '\U{9F}'
    ensures CleanTestInput([a, c, b]) == [a, c, b]
    ensures CleanMemo([a, c, b]) == [a, b]
  {
    var s := [a, c, b];
    assert forall i :: 0 <= i < |s| ==> !IsTestControl(s[i]);
    assert RemoveAll(s, IsTestControl) == s;
    assert s[0] == a && s[|s| - 1] == b;
    StripStripped(s);
    var x, y := [a, c], [b];
    assert s == x + y;
    RemoveAllAppend(x, y, IsValidatorControl);
    assert x == [a] + [c];
    RemoveAllAppend([a], [c], IsValidatorControl);
    assert RemoveAll([c], IsValidatorControl) == [];
    assert RemoveAll(x, IsValidatorControl) == [a];
    var out := RemoveAll(s, IsValidatorControl);
    assert out == [a, b];
    LineBreaksAbsent(out);
    assert out[0] == a && out[|out| - 1] == b;
    StripStripped(out);
  }
}
