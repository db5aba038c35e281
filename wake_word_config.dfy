/**
 * The two strings `AfeWakeWord::Initialize` builds with loops: the list of
 * wake words, read from the model's ';'-separated word string with
 * `std::getline`, and the microphone/reference channel-format string.
 */
module WakeWordConfig {

  const Separator: char := ';'

  /**
   * Every ';'-separated field of `s`, including empty ones: `k` separators
   * give `k + 1` fields.  Defined by appending one character at a time.
   */
  function Fields(s: string): (r: seq<string>)
    ensures |r| >= 1
    decreases |s|
  {
    if s == [] then [[]]
    else
      var prev := Fields(s[..|s| - 1]);
      var c := s[|s| - 1];
      if c == Separator then prev + [[]]
      else prev[..|prev| - 1] + [prev[|prev| - 1] + [c]]
  }

  /** The fields joined back with ';' between neighbours. */
  function Join(fields: seq<string>): string
    requires |fields| >= 1
    decreases |fields|
  {
    if |fields| == 1 then fields[0]
    else Join(fields[..|fields| - 1]) + [Separator] + fields[|fields| - 1]
  }

  predicate NoSeparator(s: string) {
    forall i :: 0 <= i < |s| ==> s[i] != Separator
  }

  /**
   * The words the `while (std::getline(ss, word, ';'))` loop collects: every
   * field, except that a last field that is empty is not produced (getline
   * fails at end of input when it extracted nothing).
   */
  function GetlineSplit(s: string): seq<string> {
    var f := Fields(s);
    if f[|f| - 1] == [] then f[..|f| - 1] else f
  }

  /** No field contains the separator. */
  lemma {:induction false} FieldsHaveNoSeparator(s: string)
    ensures forall i :: 0 <= i < |Fields(s)| ==> NoSeparator(Fields(s)[i])
    decreases |s|
  {
    if s != [] {
      FieldsHaveNoSeparator(s[..|s| - 1]);
    }
  }

  /** Appending a character to the last field appends it to the joined string. */
  lemma JoinExtendLast(fields: seq<string>, c: char)
    requires |fields| >= 1
    ensures Join(fields[..|fields| - 1] + [fields[|fields| - 1] + [c]]) == Join(fields) + [c]
  {
    var init := fields[..|fields| - 1];
    var g := init + [fields[|fields| - 1] + [c]];
    assert g[..|g| - 1] == init;
    if |fields| > 1 {
      assert fields[..|fields| - 1] == init;
    }
  }

  /** Joining the fields gives the string back. */
  lemma {:induction false} JoinFields(s: string)
    ensures Join(Fields(s)) == s
    decreases |s|
  {
    if s != [] {
      var p := s[..|s| - 1];
      var c := s[|s| - 1];
      var prev := Fields(p);
      JoinFields(p);
      if c == Separator {
        var f := prev + [[]];
        assert f[..|f| - 1] == prev;
      } else {
        JoinExtendLast(prev, c);
      }
      assert p + [c] == s;
    }
  }

  /** Appending separator-free text extends the last field only. */
  lemma {:induction false} FieldsAppendPlain(s: string, t: string)
    requires NoSeparator(t)
    ensures var f := Fields(s);
      Fields(s + t) == f[..|f| - 1] + [f[|f| - 1] + t]
    decreases |t|
  {
    var f := Fields(s);
    if t == [] {
      assert s + t == s;
      assert f[|f| - 1] + t == f[|f| - 1];
      assert f == f[..|f| - 1] + [f[|f| - 1]];
    } else {
      var u := t[..|t| - 1];
      var c := t[|t| - 1];
      FieldsAppendPlain(s, u);
      assert (s + t)[..|s + t| - 1] == s + u;
      var g := Fields(s + u);
      assert g == f[..|f| - 1] + [f[|f| - 1] + u];
      assert g[..|g| - 1] == f[..|f| - 1];
      assert (f[|f| - 1] + u) + [c] == f[|f| - 1] + t;
    }
  }

  /** Separator-free fields are recovered from their join. */
  lemma {:induction false} FieldsOfJoin(fields: seq<string>)
    requires |fields| >= 1
    requires forall i :: 0 <= i < |fields| ==> NoSeparator(fields[i])
    ensures Fields(Join(fields)) == fields
    decreases |fields|
  {
    if |fields| == 1 {
      FieldsAppendPlain([], fields[0]);
      assert [] + fields[0] == fields[0];
    } else {
      var init := fields[..|fields| - 1];
      var last := fields[|fields| - 1];
      FieldsOfJoin(init);
      var j := Join(init) + [Separator];
      assert (Join(init) + [Separator])[..|j| - 1] == Join(init);
      assert Fields(j) == init + [[]];
      FieldsAppendPlain(j, last);
      assert (init + [[]])[..|init|] == init;
      assert [] + last == last;
      assert fields == init + [last];
    }
  }

  /**
   * The round trip for a list of words with no separator inside and a
   * non-empty last word: splitting their join gives them back.
   */
  lemma GetlineSplitOfJoin(words: seq<string>)
    requires |words| >= 1 && words[|words| - 1] != []
    requires forall i :: 0 <= i < |words| ==> NoSeparator(words[i])
    ensures GetlineSplit(Join(words)) == words
  {
    FieldsOfJoin(words);
  }

  /**
   * The words are exactly the string's fields, less an empty last one; in
   * particular no word contains ';' and a trailing ';' adds no word.
   */
  lemma GetlineSplitRecoversInput(s: string)
    ensures var w := GetlineSplit(s);
      && (forall i :: 0 <= i < |w| ==> NoSeparator(w[i]))
      && (w == [] <==> s == [])
      && (w != [] ==> Join(w) == s || Join(w) + [Separator] == s)
  {
    var f := Fields(s);
    FieldsHaveNoSeparator(s);
    JoinFields(s);
    if f[|f| - 1] == [] && |f| > 1 {
      var w := f[..|f| - 1];
      assert f == w + [[]];
      assert Join(f) == Join(w) + [Separator] + [];
    }
    if s == [] {
      assert f == [[]];
    }
  }

  /** The `std::getline` loop: characters up to each ';' form a word; an empty tail is dropped. */
  method SplitWakeWords(words: string) returns (result: seq<string>)
    ensures result == GetlineSplit(words)
  {
    result := [];
    var word: string := [];
    var i := 0;
    while i < |words|
      invariant 0 <= i <= |words|
      invariant result + [word] == Fields(words[..i])
    {
      var c := words[i];
      assert words[..i + 1][..i] == words[..i];
      if c == Separator {
        result := result + [word];
        word := [];
      } else {
        word := word + [c];
      }
      i := i + 1;
    }
    assert words[..i] == words;
    if word != [] {
      result := result + [word];
    } else {
      assert (result + [word])[..|result|] == result;
    }
  }

  /**
   * The AFE input-format string: one 'M' per microphone channel (the input
   * channels less the reference channels), then one 'R' per reference channel.
   */
  method BuildInputFormat(inputChannels: int, refNum: nat) returns (format: string)
    ensures var mics := if inputChannels - refNum > 0 then inputChannels - refNum else 0;
      && |format| == mics + refNum
      && (forall i :: 0 <= i < mics ==> format[i] == 'M')
      && (forall i :: mics <= i < |format| ==> format[i] == 'R')
  {
    format := [];
    var i := 0;
    while i < inputChannels - refNum
      invariant 0 <= i && (i <= inputChannels - refNum || i == 0)
      invariant |format| == i && forall k :: 0 <= k < i ==> format[k] == 'M'
    {
      format := format + ['M'];
      i := i + 1;
    }
    var mics := i;
    var j := 0;
    while j < refNum
      invariant 0 <= j <= refNum
      invariant |format| == mics + j
      invariant forall k :: 0 <= k < mics ==> format[k] == 'M'
      invariant forall k :: mics <= k < |format| ==> format[k] == 'R'
    {
      format := format + ['R'];
      j := j + 1;
    }
  }
}
