/** One `<setting>` of a `.jfc` file: its `name` attribute and its text. */
module Setting {
  import opened Wrappers
  import opened JavaLang

  /** Either part may be a null reference; both are fixed at construction. */
  datatype Setting = Setting(name: JString, value: JString) {
    /** `toString`: both parts between single quotes, inserted as they are. */
    function ToString(): string {
      "Setting{name='" + Show(name) + "', value='" + Show(value) + "'}"
    }
  }

  predicate NoQuote(s: string) {
    forall i :: 0 <= i < |s| ==> s[i] != '\''
  }

  /** The length of the longest prefix of `s` without a single quote. */
  function QuoteFreePrefix(s: string): (r: nat)
    ensures r <= |s|
    ensures NoQuote(s[..r]) && (r < |s| ==> s[r] == '\'')
  {
    if s == [] || s[0] == '\'' then 0 else 1 + QuoteFreePrefix(s[1..])
  }

  lemma {:induction false} QuoteFreePrefixOf(n: string, rest: string)
    requires NoQuote(n)
    ensures QuoteFreePrefix(n + "'" + rest) == |n|
  {
    if n != [] {
      assert (n + "'" + rest)[1..] == n[1..] + "'" + rest;
      QuoteFreePrefixOf(n[1..], rest);
    }
  }

  /** The text of `toString` after `Setting{name='`. */
  lemma ToStringShape(s: Setting)
    ensures |s.ToString()| == 14 + |Show(s.name)| + 10 + |Show(s.value)| + 2
    ensures s.ToString()[..14] == "Setting{name='"
    ensures s.ToString()[14..] == Show(s.name) + "', value='" + Show(s.value) + "'}"
  {
    var t := s.ToString();
    assert t == "Setting{name='" + (Show(s.name) + "', value='" + Show(s.value) + "'}");
  }

  /**
   * Reads the printed name and value back out of a `toString` text: the
   * name runs up to the first quote after `Setting{name='`, and the value
   * lies between the `', value='` that follows and the closing `'}`.
   */
  function ReadBack(t: string): Option<(string, string)> {
    if |t| < 14 || t[..14] != "Setting{name='" then None
    else
      var k := 14 + QuoteFreePrefix(t[14..]);
      if k + 12 <= |t| && t[k..k + 10] == "', value='" && t[|t| - 2..] == "'}"
      then Some((t[14..k], t[k + 10..|t| - 2]))
      else None
  }

  /** When the printed name holds no quote, both parts can be read back out of `toString`. */
  lemma ToStringReadBack(s: Setting)
    requires NoQuote(Show(s.name))
    ensures ReadBack(s.ToString()) == Some((Show(s.name), Show(s.value)))
  {
    ToStringShape(s);
    var t := s.ToString();
    var n := Show(s.name);
    var rest := ", value='" + Show(s.value) + "'}";
    assert t[14..] == n + "'" + rest;
    QuoteFreePrefixOf(n, rest);
    var k := 14 + |n|;
    assert t[14..k] == n;
    assert t[k..k + 10] == "', value='";
    assert t[k + 10..|t| - 2] == Show(s.value);
  }

  /** When no name holds a quote, equal `toString` texts mean equal printed names and values. */
  lemma ToStringDistinguishes(a: Setting, b: Setting)
    requires NoQuote(Show(a.name)) && NoQuote(Show(b.name))
    requires a.ToString() == b.ToString()
    ensures Show(a.name) == Show(b.name) && Show(a.value) == Show(b.value)
  {
    ToStringReadBack(a);
    ToStringReadBack(b);
  }

  /** Quotes are not escaped, so a name holding `', value='` makes two settings print alike. */
  lemma ToStringAmbiguous()
    ensures Setting(Some("a', value='b"), Some("c")).ToString() == Setting(Some("a"), Some("b', value='c")).ToString()
  {
  }
}
