/**
 * The rewrite that turns an "MM:SS" time into a decimal numeral before it is
 * converted to a number: every ':' becomes '.', so "1:30" reads as 1.30
 * minutes, not 1.5.
 */
module TimeString {

  /** `s.replace(':', '.')`. */
  function Decimalize(s: string): (r: string)
    ensures |r| == |s|
    ensures forall i :: 0 <= i < |s| ==> r[i] == (if s[i] == ':' then '.' else s[i])
  {
    if s == [] then [] else [if s[0] == ':' then '.' else s[0]] + Decimalize(s[1..])
  }

  /** No separator survives the rewrite. */
  lemma DecimalizeLeavesNoColon(s: string)
    ensures ':' !in Decimalize(s)
  {
    var r := Decimalize(s);
    forall i | 0 <= i < |r| ensures r[i] != ':' {
      assert r[i] == (if s[i] == ':' then '.' else s[i]);
    }
  }

  /** The rewrite changes a string exactly when the string holds a ':'. */
  lemma DecimalizeFixesExactlyColonFree(s: string)
    ensures Decimalize(s) == s <==> ':' !in s
  {
    var r := Decimalize(s);
    if ':' in s {
      var i :| 0 <= i < |s| && s[i] == ':';
      assert r[i] == '.';
    } else {
      assert forall i :: 0 <= i < |s| ==> r[i] == s[i];
    }
  }

  /** Rewriting twice is rewriting once. */
  lemma DecimalizeIdempotent(s: string)
    ensures Decimalize(Decimalize(s)) == Decimalize(s)
  {
    DecimalizeLeavesNoColon(s);
    DecimalizeFixesExactlyColonFree(Decimalize(s));
  }

  /** The rewrite works character by character, so it distributes over concatenation. */
  lemma DecimalizeConcat(a: string, b: string)
    ensures Decimalize(a + b) == Decimalize(a) + Decimalize(b)
  {
    var l, r := Decimalize(a + b), Decimalize(a) + Decimalize(b);
    assert |l| == |r|;
    forall i | 0 <= i < |l| ensures l[i] == r[i] {
      if i < |a| {
        assert (a + b)[i] == a[i];
      } else {
        assert (a + b)[i] == b[i - |a|];
      }
    }
  }

  /** One minute thirty seconds becomes the numeral 1.30, not 1.5. */
  lemma DecimalizeMinuteThirty()
    ensures Decimalize("1:30") == "1.30"
  {
    var r := Decimalize("1:30");
    assert r[0] == '1' && r[1] == '.' && r[2] == '3' && r[3] == '0';
  }
}
