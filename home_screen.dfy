/** The text screen (mobile/screens/HomeScreen.js): the blank-input guard and
    the loading / result state around `analyzeText`. The request is an input:
    the parsed reply, or the error it threw. */
module HomeScreen {
  import opened Base
  import opened Screens

  /** The characters `String.prototype.trim` removes: the ECMAScript
      WhiteSpace code points (tab, vertical tab, form feed, the byte order
      mark and the space separators of Unicode category Zs) and the
      LineTerminator ones (line feed, carriage return, U+2028, U+2029). */
  predicate IsTrimmed(c: char)
  {
    || c == '\U{0009}' || c == '\U{000B}' || c == '\U{000C}' || c == '\U{FEFF}'
    || c == '\U{0020}' || c == '\U{00A0}' || c == '\U{1680}' || ('\U{2000}' <= c <= '\U{200A}')
    || c == '\U{202F}' || c == '\U{205F}' || c == '\U{3000}'
    || c == '\U{000A}' || c == '\U{000D}' || c == '\U{2028}' || c == '\U{2029}'
  }

  function TrimStart(s: string): (r: string)
    ensures |r| <= |s| && r == s[|s| - |r|..]
    ensures r != [] ==> !IsTrimmed(r[0])
    ensures forall i :: 0 <= i < |s| - |r| ==> IsTrimmed(s[i])
  {
    if s != [] && IsTrimmed(s[0]) then TrimStart(s[1..]) else s
  }

  function TrimEnd(s: string): (r: string)
    ensures |r| <= |s| && r == s[..|r|]
    ensures r != [] ==> !IsTrimmed(r[|r| - 1])
    ensures forall i :: |r| <= i < |s| ==> IsTrimmed(s[i])
  {
    if s != [] && IsTrimmed(s[|s| - 1]) then TrimEnd(s[..|s| - 1]) else s
  }

  /** `r` is the part of `s` that starts at `a`, and every character of `s`
      outside it is one that `trim` removes. */
  predicate CutAt(s: string, a: int, r: string)
  {
    && 0 <= a <= |s| - |r| && r == s[a..a + |r|]
    && (forall i :: 0 <= i < a ==> IsTrimmed(s[i]))
    && (forall i :: a + |r| <= i < |s| ==> IsTrimmed(s[i]))
  }

  /** `s.trim()`: the text with the removable characters cut from both ends,
      so that it neither starts nor ends with one. */
  function Trim(s: string): (r: string)
    ensures exists a :: CutAt(s, a, r)
    ensures r != [] ==> !IsTrimmed(r[0]) && !IsTrimmed(r[|r| - 1])
  {
    var t := TrimStart(s);
    var r := TrimEnd(t);
    var a := |s| - |t|;
    assert s[a..a + |r|] == r;
    assert CutAt(s, a, r);
    r
  }

  predicate Blank(s: string)
  {
    forall i :: 0 <= i < |s| ==> IsTrimmed(s[i])
  }

  lemma {:induction false} BlankTrimsAway(s: string)
    requires Blank(s)
    ensures TrimStart(s) == []
  {
    if s != [] {
      assert IsTrimmed(s[0]);
      BlankTrimsAway(s[1..]);
    }
  }

  lemma KeptCharSurvives(s: string, i: nat)
    requires i < |s| && !IsTrimmed(s[i])
    ensures Trim(s) != ""
  {
    var a := TrimStart(s);
    assert a[i - (|s| - |a|)] == s[i];
    assert |TrimEnd(a)| > i - (|s| - |a|);
  }

  /** `!text.trim()` holds exactly for the texts made only of whitespace and
      line terminators, the empty text included. */
  lemma TrimEmptyIffBlank(s: string)
    ensures Trim(s) == "" <==> Blank(s)
  {
    if Blank(s) {
      BlankTrimsAway(s);
    } else {
      var i :| 0 <= i < |s| && !IsTrimmed(s[i]);
      KeptCharSurvives(s, i);
    }
  }

  const CONNECT_ERROR := ServerResult(None, None, Some("Failed to connect to server"))

  class HomeScreen {
    var text: string
    var result: Option<ServerResult>
    var loading: bool
    /** Every value `loading` has been set to, in order. */
    ghost var loadingLog: seq<bool>

    constructor ()
      ensures text == "" && result == None && !loading && loadingLog == []
    {
      text, result, loading := "", None, false;
      loadingLog := [];
    }

    /** `onChangeText={setText}`. */
    method SetText(t: string)
      modifies this`text
      ensures text == t
    {
      text := t;
    }

    /** `analyze()`: a blank text returns at once and changes nothing; any
        other text raises the loading flag, keeps the reply (or the
        connection error when the request threw) and lowers the flag again on
        both paths. `called` tells whether the service was called. */
    method Analyze(response: Outcome<ServerResult>) returns (called: bool)
      modifies this`result, this`loading, this`loadingLog
      ensures called <==> !Blank(text)
      ensures !called ==> result == old(result) && loading == old(loading) && loadingLog == old(loadingLog)
      ensures called ==>
                && !loading && loadingLog == old(loadingLog) + [true, false]
                && result == Some(if response.Ok? then response.value else CONNECT_ERROR)
    {
      TrimEmptyIffBlank(text);
      if Trim(text) == "" {
        return false;
      }
      Request(response);
      called := true;
    }

    /** Lines 12-19 of `analyze()`: the loading flag around the request, and
        the reply or the connection error kept as the result. */
    method Request(response: Outcome<ServerResult>)
      modifies this`result, this`loading, this`loadingLog
      ensures !loading && loadingLog == old(loadingLog) + [true, false]
      ensures result == Some(if response.Ok? then response.value else CONNECT_ERROR)
    {
      loading := true;
      loadingLog := loadingLog + [true];
      if response.Ok? {
        result := Some(response.value);
      } else {
        result := Some(CONNECT_ERROR);
      }
      loading := false;
      loadingLog := loadingLog + [false];
    }

    /** `getTopEmotions()` on the screen's current result. */
    function TopEmotionsShown(fmt: real -> string): (rows: seq<EmotionRow>)
      reads this
      ensures result.None? || result.value.probabilities.None? ==> rows == []
      ensures result.Some? && result.value.probabilities.Some? ==>
                rows == Rows(Top5(result.value.probabilities.value), fmt)
      ensures rows == TopEmotions(result, fmt)
      ensures |rows| <= 5
    {
      TopEmotions(result, fmt)
    }
  }
}
