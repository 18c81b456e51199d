/**
  The `-H key=value` token parser (`parse_key_val` in src/main.rs).
  `s.splitn(2, '=')` cuts the token at its first `=` only; a token with no `=`
  yields a single part and is rejected.
 */
module HeaderParse {
  import opened Wrappers

  /** The single error the parser reports: the token is not of the form key=value. */
  datatype ParseError = MissingSeparator

  const Separator: char := '='

  /** Position of the first occurrence of `c` in `s`, if any. */
  function FirstIndex(s: string, c: char): (r: Option<nat>)
    ensures r.None? <==> c !in s
    ensures r.Some? ==> r.value < |s| && s[r.value] == c && c !in s[..r.value]
  {
    if |s| == 0 then None
    else if s[0] == c then Some(0)
    else
      match FirstIndex(s[1..], c)
      case None => None
      case Some(i) =>
        assert s[..i + 1] == [s[0]] + s[1..][..i];
        Some(i + 1)
  }

  /** Splits a header token at its first `=` into (key, value). */
  function ParseKeyVal(s: string): (r: Result<(string, string), ParseError>)
    ensures r.Failure? <==> Separator !in s
    ensures r.Success? ==> Separator !in r.value.0 && r.value.0 + [Separator] + r.value.1 == s
  {
    match FirstIndex(s, Separator)
    case None => Failure(MissingSeparator)
    case Some(i) =>
      assert s[..i] + [Separator] + s[i + 1..] == s;
      Success((s[..i], s[i + 1..]))
  }

  /**
    The converse round trip: joining any key without `=` to any value with `=`
    parses back to that very key and value. Together with ParseKeyVal's
    postcondition this says the split is unique, and it admits empty keys,
    empty values and values containing `=`.
   */
  lemma ParseJoined(key: string, value: string)
    requires Separator !in key
    ensures ParseKeyVal(key + [Separator] + value) == Success((key, value))
  {
    var s := key + [Separator] + value;
    assert s[|key|] == Separator;
    assert s[..|key|] == key;
    assert s[|key| + 1..] == value;
  }

  /** The splitting is at the first `=`: "a=b=c" gives key "a" and value "b=c". */
  lemma SplitsAtFirstSeparator()
    ensures ParseKeyVal("a=b=c") == Success(("a", "b=c"))
    ensures ParseKeyVal("a=") == Success(("a", ""))
    ensures ParseKeyVal("=b") == Success(("", "b"))
    ensures ParseKeyVal("ab") == Failure(MissingSeparator)
  {
    assert "a=b=c" == "a" + [Separator] + "b=c";
    assert "a=" == "a" + [Separator] + "";
    assert "=b" == "" + [Separator] + "b";
    ParseJoined("a", "b=c");
    ParseJoined("a", "");
    ParseJoined("", "b");
  }
}
