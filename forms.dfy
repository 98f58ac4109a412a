/**
 * Form cleaning (questions/forms.py): the comma-separated tag field of
 * QuestionForm and the password confirmation of RegistrationForm.
 */
module Forms {
  import opened Common

  /** Python's `str.isspace()`: the code points `str.strip()` removes. */
  predicate IsSpace(c: char)
  {
    var n := c as int;
    || 0x09 <= n <= 0x0D
    || 0x1C <= n <= 0x20
    || n == 0x85 || n == 0xA0 || n == 0x1680
    || 0x2000 <= n <= 0x200A
    || n == 0x2028 || n == 0x2029 || n == 0x202F || n == 0x205F || n == 0x3000
  }

  /** `s.lstrip()` */
  function StripLeft(s: string): (r: string)
    ensures |r| <= |s| && r == s[|s| - |r|..]
    ensures r != [] ==> !IsSpace(r[0])
    ensures forall i :: 0 <= i < |s| - |r| ==> IsSpace(s[i])
  {
    if s != [] && IsSpace(s[0]) then StripLeft(s[1..]) else s
  }

  /** `s.rstrip()` */
  function StripRight(s: string): (r: string)
    ensures |r| <= |s| && r == s[..|r|]
    ensures r != [] ==> !IsSpace(r[|r| - 1])
    ensures forall i :: |r| <= i < |s| ==> IsSpace(s[i])
  {
    if s != [] && IsSpace(s[|s| - 1]) then StripRight(s[..|s| - 1]) else s
  }

  /** A string that neither starts nor ends with whitespace. */
  predicate Stripped(s: string)
  {
    s != [] ==> !IsSpace(s[0]) && !IsSpace(s[|s| - 1])
  }

  /** `r` is `s[a..b]` for some `a` and `b` with only whitespace before `a` and from `b` on. */
  ghost predicate TrimmedOf(s: string, r: string)
  {
    exists a, b ::
      && 0 <= a <= b <= |s| && r == s[a..b]
      && (forall i :: 0 <= i < a ==> IsSpace(s[i]))
      && (forall i :: b <= i < |s| ==> IsSpace(s[i]))
  }

  /**
   * `s.strip()`: the piece of `s` left once the leading and the trailing
   * whitespace are removed (`StripTrims`); it neither starts nor ends with
   * whitespace.
   */
  function Strip(s: string): (r: string)
    ensures |r| <= |s|
    ensures Stripped(r)
  {
    var left := StripLeft(s);
    var r := StripRight(left);
    assert r != [] ==> r[0] == left[0];
    r
  }

  /**
   * Removing a whitespace prefix and then a whitespace suffix leaves a
   * slice of `s` with only whitespace outside it.
   */
  lemma TrimmedParts(s: string, left: string, r: string)
    requires |left| <= |s| && left == s[|s| - |left|..]
    requires forall i :: 0 <= i < |s| - |left| ==> IsSpace(s[i])
    requires |r| <= |left| && r == left[..|r|]
    requires forall i :: |r| <= i < |left| ==> IsSpace(left[i])
    ensures TrimmedOf(s, r)
  {
    var a := |s| - |left|;
    var b := a + |r|;
    assert r == s[a..b] by {
      assert forall k :: 0 <= k < |r| ==> r[k] == left[k];
      assert forall k :: 0 <= k < |r| ==> left[k] == s[a + k];
    }
    assert forall i :: b <= i < |s| ==> IsSpace(s[i]) by {
      forall i | b <= i < |s|
        ensures IsSpace(s[i])
      {
        assert s[i] == left[i - a];
      }
    }
  }

  /** Stripping removes only whitespace, and only from the two ends. */
  lemma StripTrims(s: string)
    ensures TrimmedOf(s, Strip(s))
  {
    var left := StripLeft(s);
    TrimmedParts(s, left, StripRight(left));
  }

  /** Stripping only removes characters from the ends: no comma appears. */
  lemma StripCommaFree(s: string)
    requires ',' !in s
    ensures ',' !in Strip(s)
  {
    var left := StripLeft(s);
    SliceWithout(s, ',', |s| - |left|, |s|);
    SliceWithout(left, ',', 0, |StripRight(left)|);
  }

  /** A slice holds no element the whole sequence lacks. */
  lemma SliceWithout<T>(s: seq<T>, x: T, lo: nat, hi: nat)
    requires lo <= hi <= |s|
    requires x !in s
    ensures x !in s[lo..hi]
  {
  }

  /** Stripping what is already stripped changes nothing. */
  lemma StripStripped(s: string)
    requires Stripped(s)
    ensures Strip(s) == s
  {
  }

  /** Number of commas in `s`. */
  function Commas(s: string): nat
  {
    if s == [] then 0 else (if s[0] == ',' then 1 else 0) + Commas(s[1..])
  }

  /** `s.split(',')`: the pieces between commas, empty ones included. */
  function Split(s: string): (r: seq<string>)
    ensures |r| == Commas(s) + 1
    ensures forall p :: p in r ==> ',' !in p
  {
    if s == [] then [""]
    else
      var tail := Split(s[1..]);
      if s[0] == ',' then [""] + tail
      else
        assert tail[0] in tail;
        assert forall p :: p in tail[1..] ==> p in tail;
        [[s[0]] + tail[0]] + tail[1..]
  }

  /** `','.join(pieces)` */
  function Join(pieces: seq<string>): string
  {
    if pieces == [] then ""
    else if |pieces| == 1 then pieces[0]
    else pieces[0] + "," + Join(pieces[1..])
  }

  /** Prefixing the first piece with a character prefixes the joined string with it. */
  lemma JoinCons(c: char, pieces: seq<string>)
    requires pieces != []
    ensures Join([[c] + pieces[0]] + pieces[1..]) == [c] + Join(pieces)
  {
    var head := [c] + pieces[0];
    if |pieces| == 1 {
      assert [head] + pieces[1..] == [head];
    } else {
      var rest := Join(pieces[1..]);
      assert ([head] + pieces[1..])[1..] == pieces[1..];
      assert Join([head] + pieces[1..]) == head + "," + rest;
      ConcatAssoc([c], pieces[0], ",");
      ConcatAssoc([c], pieces[0] + ",", rest);
    }
  }

  /** Splitting loses nothing: joining the pieces gives the input back. */
  lemma {:induction false} JoinSplit(s: string)
    ensures Join(Split(s)) == s
  {
    if s != [] {
      var tail := Split(s[1..]);
      JoinSplit(s[1..]);
      if s[0] == ',' {
        assert Join([""] + tail) == "" + "," + Join(tail);
      } else {
        JoinCons(s[0], tail);
      }
      assert s == [s[0]] + s[1..];
    }
  }

  /** A piece without commas followed by a comma splits off as one piece. */
  lemma {:induction false} SplitPiece(p: string, rest: string)
    requires ',' !in p
    ensures Split(p + "," + rest) == [p] + Split(rest)
    ensures Split(p) == [p]
  {
    if p != [] {
      SplitPiece(p[1..], rest);
      assert (p + "," + rest)[1..] == p[1..] + "," + rest;
      assert p == [p[0]] + p[1..];
    } else {
      assert p + "," + rest == [','] + rest;
    }
  }

  /** Joining comma-free pieces and splitting again gives the pieces back. */
  lemma {:induction false} SplitJoin(pieces: seq<string>)
    requires pieces != []
    requires forall p :: p in pieces ==> ',' !in p
    ensures Split(Join(pieces)) == pieces
  {
    if |pieces| == 1 {
      SplitPiece(pieces[0], "");
    } else {
      SplitJoin(pieces[1..]);
      SplitPiece(pieces[0], Join(pieces[1..]));
    }
  }

  /** A tag as `clean_tags` produces it: non-empty, stripped, comma-free. */
  predicate IsCleanTag(t: string)
  {
    t != [] && Stripped(t) && ',' !in t
  }

  /**
   * `[t.strip() for t in pieces if t.strip()]`: the entries are exactly the
   * non-blank stripped pieces (`StripNonBlankMembers`), in input order
   * (`StripNonBlankConcat`).
   */
  function StripNonBlank(pieces: seq<string>): (r: seq<string>)
    ensures |r| <= |pieces|
    ensures forall t :: t in r ==> t != [] && Stripped(t)
  {
    if pieces == [] then []
    else
      var t := Strip(pieces[0]);
      var rest := StripNonBlank(pieces[1..]);
      if t != "" then [t] + rest else rest
  }

  /** The entries are exactly the non-blank stripped pieces. */
  lemma {:induction false} StripNonBlankMembers(pieces: seq<string>)
    ensures forall t :: t in StripNonBlank(pieces) <==> exists p :: p in pieces && t == Strip(p) && t != ""
  {
    if pieces != [] {
      StripNonBlankMembers(pieces[1..]);
      assert forall p :: p in pieces <==> p == pieces[0] || p in pieces[1..];
    }
  }

  /** The comprehension works piece by piece: it keeps the input order and one entry per non-blank piece. */
  lemma {:induction false} StripNonBlankConcat(a: seq<string>, b: seq<string>)
    ensures StripNonBlank(a + b) == StripNonBlank(a) + StripNonBlank(b)
  {
    if a != [] {
      StripNonBlankConcat(a[1..], b);
      StripNonBlankConcatStep(a[0], a[1..], b);
      assert [a[0]] + a[1..] == a;
    } else {
      assert a + b == b;
    }
  }

  /** The inductive step of `StripNonBlankConcat`: one more piece in front. */
  lemma StripNonBlankConcatStep(x: string, rest: seq<string>, b: seq<string>)
    requires StripNonBlank(rest + b) == StripNonBlank(rest) + StripNonBlank(b)
    ensures StripNonBlank([x] + rest + b) == StripNonBlank([x] + rest) + StripNonBlank(b)
  {
    var head := if Strip(x) != "" then [Strip(x)] else [];
    assert StripNonBlank([x] + rest + b) == head + StripNonBlank(rest + b) by {
      assert [x] + rest + b == [x] + (rest + b);
      StripNonBlankCons(x, rest + b);
    }
    StripNonBlankCons(x, rest);
    SharedHead(StripNonBlank([x] + rest + b), StripNonBlank([x] + rest), head, StripNonBlank(rest), StripNonBlank(b));
  }

  /** Two sequences with the same head, one continuing with `x` and one with `x + y`. */
  lemma SharedHead(whole: seq<string>, part: seq<string>, head: seq<string>, x: seq<string>, y: seq<string>)
    requires whole == head + (x + y) && part == head + x
    ensures whole == part + y
  {
    ConcatAssoc(head, x, y);
  }

  /** The comprehension's first entry comes from the first piece, if it is not blank. */
  lemma StripNonBlankCons(p: string, rest: seq<string>)
    ensures StripNonBlank([p] + rest) == (if Strip(p) != "" then [Strip(p)] else []) + StripNonBlank(rest)
  {
    assert ([p] + rest)[0] == p;
    assert ([p] + rest)[1..] == rest;
  }

  /** Stripping comma-free pieces leaves them comma-free. */
  lemma {:induction false} StripNonBlankCommaFree(pieces: seq<string>)
    requires forall p :: p in pieces ==> ',' !in p
    ensures forall t :: t in StripNonBlank(pieces) ==> ',' !in t
  {
    if pieces != [] {
      assert pieces[0] in pieces;
      StripCommaFree(pieces[0]);
      assert forall p :: p in pieces[1..] ==> p in pieces;
      StripNonBlankCommaFree(pieces[1..]);
    }
  }

  /**
   * `QuestionForm.clean_tags`: a missing or empty field gives no tags;
   * otherwise the stripped, non-blank comma pieces in input order.
   * Duplicates and over-long names are kept.
   */
  function CleanTags(tags: Option<string>): (r: seq<string>)
    ensures tags == None || tags == Some("") ==> r == []
    ensures tags.Some? ==> |r| <= Commas(tags.value) + 1
    ensures forall t :: t in r ==> IsCleanTag(t)
  {
    if tags.None? || tags.value == "" then []
    else
      StripNonBlankCommaFree(Split(tags.value));
      StripNonBlank(Split(tags.value))
  }

  /** Every cleaned tag is left unchanged by a further `strip()`. */
  lemma CleanTagsStripped(tags: Option<string>)
    ensures forall t :: t in CleanTags(tags) ==> Strip(t) == t
  {
    forall t | t in CleanTags(tags)
      ensures Strip(t) == t
    {
      StripStripped(t);
    }
  }

  /** Also for the empty field, cleaning strips and filters the comma pieces. */
  lemma CleanTagsPieces(s: string)
    ensures CleanTags(Some(s)) == StripNonBlank(Split(s))
  {
    if s == "" {
      var pieces := Split(s);
      assert pieces == [""];
      assert Strip(pieces[0]) == "";
      assert pieces[1..] == [];
      assert StripNonBlank(pieces) == [];
    }
  }

  /** The tags are exactly the non-blank stripped comma pieces of the field. */
  lemma CleanTagsMembers(s: string)
    ensures forall t :: t in CleanTags(Some(s)) <==> exists p :: p in Split(s) && t == Strip(p) && t != ""
  {
    CleanTagsPieces(s);
    StripNonBlankMembers(Split(s));
  }

  /** Splitting at one comma splits the two sides independently. */
  lemma {:induction false} SplitComma(a: string, b: string)
    ensures Split(a + "," + b) == Split(a) + Split(b)
  {
    if a == [] {
      assert a + "," + b == [','] + b;
      assert (a + "," + b)[1..] == b;
    } else {
      assert (a + "," + b)[0] == a[0];
      assert (a + "," + b)[1..] == a[1..] + "," + b;
      SplitComma(a[1..], b);
    }
  }

  /**
   * Cleaning is compositional at every comma: the tags of `a,b` are the
   * tags of `a` followed by the tags of `b`, in order, duplicates kept.
   */
  lemma CleanTagsComma(a: string, b: string)
    ensures CleanTags(Some(a + "," + b)) == CleanTags(Some(a)) + CleanTags(Some(b))
  {
    CleanTagsPieces(a + "," + b);
    CleanTagsPieces(a);
    CleanTagsPieces(b);
    SplitComma(a, b);
    StripNonBlankConcat(Split(a), Split(b));
  }

  /** A comma-free field gives its stripped text as the one tag, or nothing when that is blank. */
  lemma CleanTagsPiece(p: string)
    requires ',' !in p
    ensures CleanTags(Some(p)) == (if Strip(p) == "" then [] else [Strip(p)])
  {
    CleanTagsPieces(p);
    SplitPiece(p, "");
  }

  /** `strip()` removes a leading blank. */
  lemma StripLeadingBlank()
    ensures Strip(" a") == "a"
  {
    assert StripLeft(" a") == "a" by { assert " a"[1..] == "a"; }
    assert StripRight("a") == "a";
  }

  /** `strip()` of a blank is empty. */
  lemma StripBlank()
    ensures Strip(" ") == ""
  {
    assert StripLeft(" ") == "" by { assert " "[1..] == ""; }
  }

  /** `strip()` removes a trailing blank. */
  lemma StripTrailingBlank()
    ensures Strip("b ") == "b"
  {
    assert StripLeft("b ") == "b ";
    assert StripRight("b ") == "b" by { assert "b "[..1] == "b"; }
  }

  /** The piece `" a"` cleans to `["a"]`. */
  lemma CleanLeading(a: string)
    requires a == " a"
    ensures CleanTags(Some(a)) == ["a"]
  {
    StripLeadingBlank();
    CleanTagsPiece(a);
  }

  /** A blank piece cleans to nothing. */
  lemma CleanBlank(blank: string)
    requires blank == " "
    ensures CleanTags(Some(blank)) == []
  {
    StripBlank();
    CleanTagsPiece(blank);
  }

  /** The piece `"b "` cleans to `["b"]`. */
  lemma CleanTrailing(b: string)
    requires b == "b "
    ensures CleanTags(Some(b)) == ["b"]
  {
    StripTrailingBlank();
    CleanTagsPiece(b);
  }

  /** Blank pieces vanish and the others are stripped: `" a, ,b "` gives `["a", "b"]`. */
  lemma CleanTagsExample(a: string, blank: string, b: string)
    requires a == " a" && blank == " " && b == "b "
    ensures CleanTags(Some(a + "," + blank + "," + b)) == ["a", "b"]
  {
    var rest := blank + "," + b;
    assert CleanTags(Some(rest)) == ["b"] by {
      CleanBlank(blank);
      CleanTrailing(b);
      CleanTagsComma(blank, b);
    }
    assert CleanTags(Some(a + "," + rest)) == ["a", "b"] by {
      CleanLeading(a);
      CleanTagsComma(a, rest);
    }
    assert a + "," + blank + "," + b == a + "," + rest by {
      ConcatAssoc(a + ",", blank, ",");
      ConcatAssoc(a + ",", blank + ",", b);
    }
  }

  /** Clean tags joined with commas are parsed back unchanged, duplicates included. */
  lemma {:induction false} CleanTagsJoin(ts: seq<string>)
    requires forall t :: t in ts ==> IsCleanTag(t)
    ensures CleanTags(Some(Join(ts))) == ts
  {
    if ts != [] {
      assert ts[0] in ts;
      assert Join(ts) != "" by {
        if |ts| > 1 { assert Join(ts) == ts[0] + "," + Join(ts[1..]); }
      }
      SplitJoin(ts);
      StripNonBlankClean(ts);
    }
  }

  /** A clean tag in front passes through the strip-and-filter step unchanged. */
  lemma StripNonBlankCleanCons(t: string, rest: seq<string>)
    requires IsCleanTag(t)
    ensures StripNonBlank([t] + rest) == [t] + StripNonBlank(rest)
  {
    StripStripped(t);
    assert ([t] + rest)[1..] == rest;
  }

  /** Clean tags pass through the strip-and-filter step unchanged. */
  lemma {:induction false} StripNonBlankClean(ts: seq<string>)
    requires forall t :: t in ts ==> IsCleanTag(t)
    ensures StripNonBlank(ts) == ts
  {
    if ts != [] {
      var rest := ts[1..];
      assert forall t :: t in rest ==> IsCleanTag(t) by {
        assert forall t :: t in rest ==> t in ts;
      }
      StripNonBlankClean(rest);
      assert IsCleanTag(ts[0]) by {
        assert ts[0] in ts;
      }
      StripNonBlankCleanCons(ts[0], rest);
      assert [ts[0]] + rest == ts;
    }
  }

  /** Cleaning is idempotent: re-submitting the cleaned list joined with commas gives it back. */
  lemma CleanTagsIdempotent(tags: Option<string>)
    ensures CleanTags(Some(Join(CleanTags(tags)))) == CleanTags(tags)
  {
    CleanTagsJoin(CleanTags(tags));
  }

  /** Case-sensitive, order-keeping, no de-duplication. */
  lemma CleanTagsKeepsDuplicates()
    ensures CleanTags(Some("python,Python,python")) == ["python", "Python", "python"]
  {
    var ts := ["python", "Python", "python"];
    assert Join(ts) == "python,Python,python";
    CleanTagsJoin(ts);
  }

  const PasswordMismatch: string := "Passwords do not match!"

  /** `dict.get`: the value for `key`, or None. */
  function Get<V>(m: map<string, V>, key: string): Option<V>
  {
    if key in m then Some(m[key]) else None
  }

  /**
   * RegistrationForm after field validation: the cleaned values of the
   * fields that passed, and the error lists per field.
   */
  class RegistrationForm {
    var cleanedData: map<string, string>
    var errors: map<string, seq<string>>

    constructor (cleaned: map<string, string>, fieldErrors: map<string, seq<string>>)
      ensures cleanedData == cleaned && errors == fieldErrors
    {
      cleanedData := cleaned;
      errors := fieldErrors;
    }

    /** `cleaned_data.get("password") != cleaned_data.get("password_repeat")` */
    predicate PasswordsDiffer()
      reads this
    {
      Get(cleanedData, "password") != Get(cleanedData, "password_repeat")
    }

    /**
     * `RegistrationForm.clean`: when the passwords differ, `add_error`
     * appends the message to the errors of `password_repeat` and drops that
     * field from the cleaned data; otherwise nothing changes. The cleaned
     * data is returned.
     */
    method Clean() returns (r: map<string, string>)
      modifies this
      ensures old(PasswordsDiffer()) ==>
        && errors == old(errors)["password_repeat" := (if "password_repeat" in old(errors) then old(errors)["password_repeat"] else []) + [PasswordMismatch]]
        && cleanedData == old(cleanedData) - {"password_repeat"}
      ensures !old(PasswordsDiffer()) ==> errors == old(errors) && cleanedData == old(cleanedData)
      ensures r == cleanedData
    {
      var password := Get(cleanedData, "password");
      var passwordRepeat := Get(cleanedData, "password_repeat");
      if password != passwordRepeat {
        var previous := if "password_repeat" in errors then errors["password_repeat"] else [];
        errors := errors["password_repeat" := previous + [PasswordMismatch]];
        cleanedData := cleanedData - {"password_repeat"};
      }
      r := cleanedData;
    }
  }
}
