/**
 * The string rules the synchronisation applies: the part of a mapped field
 * name before " | ", attribute slugs, value abbreviations, the decimal text
 * of a remote id, prefix and substring tests.
 */
module Text {

  /** `sub` occurs in `s` starting at position `i`. */
  predicate OccursAt(s: string, sub: string, i: int)
  {
    0 <= i && i + |sub| <= |s| && s[i..i + |sub|] == sub
  }

  /** Python's `sub in s` on strings. */
  function Contains(s: string, sub: string): (r: bool)
    ensures r <==> exists i :: OccursAt(s, sub, i)
    decreases |s|
  {
    if |sub| > |s| then
      assert forall i :: !OccursAt(s, sub, i);
      false
    else if sub <= s then
      assert OccursAt(s, sub, 0);
      true
    else
      var r := Contains(s[1..], sub);
      assert forall i :: OccursAt(s[1..], sub, i) <==> OccursAt(s, sub, i + 1) by {
        forall i ensures OccursAt(s[1..], sub, i) <==> OccursAt(s, sub, i + 1) {
          if 0 <= i && i + |sub| <= |s| - 1 {
            assert s[1..][i..i + |sub|] == s[i + 1..i + 1 + |sub|];
          }
        }
      }
      assert !OccursAt(s, sub, 0);
      assert (exists i :: OccursAt(s, sub, i)) ==> exists i :: OccursAt(s[1..], sub, i) by {
        if exists i :: OccursAt(s, sub, i) {
          var i :| OccursAt(s, sub, i);
          assert i >= 1;
          assert OccursAt(s[1..], sub, i - 1);
        }
      }
      r
  }

  /** Python's `s.startswith(p)`. */
  predicate StartsWith(s: string, p: string)
  {
    p <= s
  }

  /** The separator between a field name and its label in a field map row. */
  const Separator: string := " | "

  predicate SeparatorAt(s: string, i: int)
  {
    OccursAt(s, Separator, i)
  }

  /**
   * `s.split(" | ")[0]`: the longest prefix of `s` in front of which no
   * separator starts; when it is shorter than `s`, a separator follows it.
   */
  function FieldNameHead(s: string): (r: string)
    ensures r <= s
    ensures forall i :: 0 <= i < |r| ==> !SeparatorAt(s, i)
    ensures r != s ==> SeparatorAt(s, |r|)
  {
    if |s| < 3 then s
    else if s[..3] == Separator then
      assert SeparatorAt(s, 0);
      ""
    else
      var t := s[1..];
      var h := FieldNameHead(t);
      assert forall i :: SeparatorAt(t, i) <==> SeparatorAt(s, i + 1) by {
        forall i ensures SeparatorAt(t, i) <==> SeparatorAt(s, i + 1) {
          if 0 <= i && i + 3 <= |t| {
            assert t[i..i + 3] == s[i + 1..i + 4];
          }
        }
      }
      assert !SeparatorAt(s, 0);
      assert forall i :: 1 <= i < 1 + |h| ==> !SeparatorAt(s, i) by {
        forall i | 1 <= i < 1 + |h| ensures !SeparatorAt(s, i) {
          assert !SeparatorAt(t, i - 1);
        }
      }
      assert [s[0]] + h <= s;
      [s[0]] + h
  }

  /** The full field name is used when it holds no separator. */
  lemma {:induction false} FieldNameHeadWithoutSeparator(s: string)
    requires forall i :: !SeparatorAt(s, i)
    ensures FieldNameHead(s) == s
  {
  }

  /** A field name followed by " | " and any label keeps only the name, when the name holds no separator of its own. */
  lemma FieldNameHeadOfLabelled(name: string, caption: string)
    requires forall i :: 0 <= i < |name| ==> !SeparatorAt(name + Separator + caption, i)
    ensures FieldNameHead(name + Separator + caption) == name
  {
    var s := name + Separator + caption;
    var r := FieldNameHead(s);
    assert s[|name|..|name| + 3] == Separator;
    assert SeparatorAt(s, |name|);
    assert |r| <= |name|;
    assert |r| >= |name|;
    assert name == s[..|name|];
  }

  /** Python's `c.lower()` on ASCII letters. */
  function Lower(c: char): char
  {
    if 'A' <= c <= 'Z' then (c as int + 32) as char else c
  }

  function SlugChar(c: char): char
  {
    if c == ' ' then '_' else Lower(c)
  }

  /** `name.lower().replace(" ", "_")`, the slug of a product attribute. */
  function Slug(name: string): (r: string)
    ensures |r| == |name|
    ensures forall i :: 0 <= i < |name| ==> r[i] == SlugChar(name[i])
  {
    seq(|name|, i requires 0 <= i < |name| => SlugChar(name[i]))
  }

  /** A slug holds no space and no upper-case ASCII letter, and slugging it again changes nothing. */
  lemma SlugIsNormal(name: string)
    ensures ' ' !in Slug(name)
    ensures forall i :: 0 <= i < |name| ==> !('A' <= Slug(name)[i] <= 'Z')
    ensures Slug(Slug(name)) == Slug(name)
  {
    var s := Slug(name);
    forall i | 0 <= i < |s| ensures s[i] != ' ' && !('A' <= s[i] <= 'Z') {
      assert s[i] == SlugChar(name[i]);
    }
  }

  /** `option.replace(" ", "")`, the abbreviation of an attribute value. */
  function StripSpaces(s: string): (r: string)
    ensures ' ' !in r
    ensures |r| <= |s|
    ensures ' ' !in s ==> r == s
    ensures forall c :: c in r ==> c in s
  {
    if s == [] then []
    else if s[0] == ' ' then StripSpaces(s[1..])
    else [s[0]] + StripSpaces(s[1..])
  }

  /** Stripping is idempotent. */
  lemma StripSpacesIdempotent(s: string)
    ensures StripSpaces(StripSpaces(s)) == StripSpaces(s)
  {
  }

  function Digit(d: nat): char
    requires d < 10
  {
    "0123456789"[d]
  }

  predicate IsDigit(c: char)
  {
    '0' <= c <= '9'
  }

  /** `str(n)` for a non-negative integer. */
  function NatToString(n: nat): (r: string)
    ensures |r| >= 1
    ensures forall i :: 0 <= i < |r| ==> IsDigit(r[i])
    ensures |r| > 1 ==> r[0] != '0'
  {
    if n < 10 then [Digit(n)] else NatToString(n / 10) + [Digit(n % 10)]
  }

  /** The value of a string of decimal digits. */
  function ParseNat(s: string): nat
    requires forall i :: 0 <= i < |s| ==> IsDigit(s[i])
  {
    if s == [] then 0
    else
      assert IsDigit(s[|s| - 1]);
      ParseNat(s[..|s| - 1]) * 10 + (s[|s| - 1] as int - '0' as int)
  }

  /** Reading back the text of a remote id gives the id. */
  lemma {:induction false} NatToStringRoundTrip(n: nat)
    ensures ParseNat(NatToString(n)) == n
  {
    if n >= 10 {
      var s := NatToString(n);
      assert s[..|s| - 1] == NatToString(n / 10);
      NatToStringRoundTrip(n / 10);
    }
  }

  /** Different ids have different texts. */
  lemma NatToStringInjective(m: nat, n: nat)
    requires NatToString(m) == NatToString(n)
    ensures m == n
  {
    NatToStringRoundTrip(m);
    NatToStringRoundTrip(n);
  }
}
