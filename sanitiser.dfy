/**
 * The input sanitiser: `re.sub(r"[^\w]", "", request.args.get(name, ""))`,
 * shared verbatim by both versions of the view.
 */
module Sanitiser {
  import opened Text
  import opened Domain

  /** Delete every character that is not a word character, keeping the rest in order. */
  function Sanitise(raw: string): (r: string)
    ensures forall i :: 0 <= i < |r| ==> IsWordChar(r[i])
    ensures |r| <= |raw|
  {
    if raw == [] then []
    else (if IsWordChar(raw[0]) then [raw[0]] else []) + Sanitise(raw[1..])
  }

  /** The sanitised value of a request argument; a missing argument gives "". */
  function SanitiseParam(args: Args, name: string): (r: string)
    ensures forall i :: 0 <= i < |r| ==> IsWordChar(r[i])
    ensures name !in args ==> r == ""
    ensures name in args ==> r == Sanitise(args[name])
  {
    Sanitise(Param(args, name))
  }

  /** Sanitising distributes over concatenation. */
  lemma {:induction false} SanitiseAppend(a: string, b: string)
    ensures Sanitise(a + b) == Sanitise(a) + Sanitise(b)
  {
    if a != [] {
      assert (a + b)[1..] == a[1..] + b;
      SanitiseAppend(a[1..], b);
    } else {
      assert a + b == b;
    }
  }

  /** Together with `SanitiseAppend`, this fixes `Sanitise` on every input. */
  lemma SanitiseSingle(c: char)
    ensures Sanitise([c]) == if IsWordChar(c) then [c] else []
  {
    assert [c][1..] == [];
  }

  /** A string of word characters only is left as it is. */
  lemma {:induction false} SanitiseKeepsWords(s: string)
    requires forall i :: 0 <= i < |s| ==> IsWordChar(s[i])
    ensures Sanitise(s) == s
  {
    if s != [] {
      SanitiseKeepsWords(s[1..]);
    }
  }

  /** A value without a single word character sanitises to nothing. */
  lemma {:induction false} SanitiseNoWordChars(raw: string)
    ensures (forall i :: 0 <= i < |raw| ==> !IsWordChar(raw[i])) ==> Sanitise(raw) == ""
  {
    if raw != [] {
      SanitiseNoWordChars(raw[1..]);
      if forall i :: 0 <= i < |raw| ==> !IsWordChar(raw[i]) {
        assert !IsWordChar(raw[0]);
        assert forall i :: 0 <= i < |raw[1..]| ==> !IsWordChar(raw[1..][i]) by {
          forall i | 0 <= i < |raw[1..]| ensures !IsWordChar(raw[1..][i]) {
            assert raw[1..][i] == raw[i + 1];
          }
        }
      }
    }
  }

  /** Sanitising twice is sanitising once. */
  lemma SanitiseIdempotent(raw: string)
    ensures Sanitise(Sanitise(raw)) == Sanitise(raw)
  {
    SanitiseKeepsWords(Sanitise(raw));
  }

  /** The output only deletes characters of the input. */
  lemma {:induction false} SanitiseSubsequence(raw: string)
    ensures IsSubsequence(Sanitise(raw), raw)
  {
    if raw != [] {
      SanitiseSubsequence(raw[1..]);
      if IsWordChar(raw[0]) {
        assert Sanitise(raw)[1..] == Sanitise(raw[1..]);
      } else {
        assert Sanitise(raw) == Sanitise(raw[1..]);
      }
    }
  }

  /** No word character of the input is lost: each one survives, at its relative place. */
  lemma {:induction false} SanitiseKeepsEveryWordChar(raw: string, i: int)
    requires 0 <= i < |raw| && IsWordChar(raw[i])
    ensures Sanitise(raw[i..]) == [raw[i]] + Sanitise(raw[i + 1..])
    ensures raw[i] in Sanitise(raw)
  {
    assert raw == raw[..i] + raw[i..];
    SanitiseAppend(raw[..i], raw[i..]);
  }

  /** A character that is not a word character is cut out, and the two sides are sanitised on their own. */
  lemma SanitiseDropsOne(a: string, c: char, b: string)
    requires !IsWordChar(c)
    ensures Sanitise(a + [c] + b) == Sanitise(a) + Sanitise(b)
  {
    SanitiseAppend(a + [c], b);
    SanitiseAppend(a, [c]);
    SanitiseSingle(c);
  }

  /** The values from the sanitiser tests that agree with the regular expression. */
  lemma SanitiseExamples()
    ensures Sanitise("asdf") == "asdf"
    ensures Sanitise("as%df") == "asdf"
    ensures Sanitise("as!df") == "asdf"
    ensures Sanitise("as'df") == "asdf"
    ensures Sanitise("\"asdf\"") == "asdf"
  {
    SanitiseKeepsWords("as");
    SanitiseKeepsWords("df");
    SanitiseKeepsWords("asdf");
    assert "as" + "df" == "asdf";
    assert "as%df" == "as" + ['%'] + "df";
    SanitiseDropsOne("as", '%', "df");
    assert "as!df" == "as" + ['!'] + "df";
    SanitiseDropsOne("as", '!', "df");
    assert "as'df" == "as" + ['\''] + "df";
    SanitiseDropsOne("as", '\'', "df");
    assert "asdf\"" == "asdf" + ['"'] + "";
    SanitiseDropsOne("asdf", '"', "");
    assert "\"asdf\"" == "" + ['"'] + "asdf\"";
    SanitiseDropsOne("", '"', "asdf\"");
  }

  /**
   * Spaces and parentheses are not word characters, so they are removed
   * too (the test table expects "as df" and "as(d)f" to survive).
   */
  lemma SanitiseDropsSpaceAndParens()
    ensures Sanitise("as df") == "asdf"
    ensures Sanitise("as(d)f") == "asdf"
  {
    SanitiseKeepsWords("as");
    SanitiseKeepsWords("df");
    SanitiseKeepsWords("d");
    SanitiseKeepsWords("f");
    assert "as" + "df" == "asdf";
    assert "as df" == "as" + [' '] + "df";
    SanitiseDropsOne("as", ' ', "df");
    assert "d)f" == "d" + [')'] + "f";
    SanitiseDropsOne("d", ')', "f");
    assert "as(d)f" == "as" + ['('] + "d)f";
    SanitiseDropsOne("as", '(', "d)f");
  }
}
