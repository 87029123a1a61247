/** Values shared by every part of the shop model: optional request fields,
    HTTP replies, document identifiers and the JavaScript string operations
    the controllers and the schema setters rely on. */
module Common {

  datatype Option<T> = None | Some(value: T)

  /** What a controller sends back: a status with a JSON value, or a status
      with a `{ message }` body. */
  datatype Reply<T> = Ok(status: nat, value: T) | Err(status: nat, message: string)

  /** A document identifier, in its 24-character hexadecimal text form. */
  type Id = string

  predicate IsHexDigit(c: char) {
    '0' <= c <= '9' || 'a' <= c <= 'f' || 'A' <= c <= 'F'
  }

  /** `mongoose.Types.ObjectId.isValid` on a string: 24 hexadecimal digits. */
  predicate IsValidObjectId(s: string) {
    |s| == 24 && forall i :: 0 <= i < |s| ==> IsHexDigit(s[i])
  }

  /** The text of an ObjectId after a cast: `String(new ObjectId(s))` prints
      the 24 digits in lower case. */
  function CastId(s: string): (r: Id)
    ensures |r| == |s|
    ensures IsValidObjectId(s) ==> IsCanonicalId(r)
  {
    Lower(s)
  }

  /** An id as the database stores and prints it. */
  predicate IsCanonicalId(id: Id) {
    IsValidObjectId(id) && Lower(id) == id
  }

  /** Casting an id the database printed gives that id back. */
  lemma CastCanonical(id: Id)
    requires IsCanonicalId(id)
    ensures CastId(id) == id
  {
  }

  // ---------------------------------------------------------------------
  // JavaScript truthiness of optional request fields
  // ---------------------------------------------------------------------

  /** `!!s` for a string field: present and not the empty string. */
  predicate Truthy(s: Option<string>) {
    s.Some? && s.value != ""
  }

  /** `!!n` for a numeric field: present and not zero. */
  predicate TruthyReal(n: Option<real>) {
    n.Some? && n.value != 0.0
  }

  predicate TruthyInt(n: Option<int>) {
    n.Some? && n.value != 0
  }

  /** `s || fallback` for a string field. */
  function OrString(s: Option<string>, fallback: string): (r: string)
    ensures Truthy(s) ==> r == s.value
    ensures !Truthy(s) ==> r == fallback
  {
    if Truthy(s) then s.value else fallback
  }

  // ---------------------------------------------------------------------
  // String.prototype.trim
  // ---------------------------------------------------------------------

  /** The white space `trim` removes (the ASCII part of it). */
  predicate IsSpace(c: char) {
    c == ' ' || c == '\t' || c == '\n' || c == '\r'
  }

  function TrimStart(s: string): (r: string)
    ensures |r| <= |s| && r == s[|s| - |r|..]
    ensures r == [] || !IsSpace(r[0])
    ensures forall i :: 0 <= i < |s| - |r| ==> IsSpace(s[i])
    decreases |s|
  {
    if |s| > 0 && IsSpace(s[0]) then TrimStart(s[1..]) else s
  }

  function TrimEnd(s: string): (r: string)
    ensures |r| <= |s| && r == s[..|r|]
    ensures r == [] || !IsSpace(r[|r| - 1])
    ensures forall i :: |r| <= i < |s| ==> IsSpace(s[i])
    decreases |s|
  {
    if |s| > 0 && IsSpace(s[|s| - 1]) then TrimEnd(s[..|s| - 1]) else s
  }

  /** `s.trim()`: the longest infix of `s` with no white space at either end. */
  function Trim(s: string): (r: string)
    ensures |r| <= |s|
    ensures r == [] || (!IsSpace(r[0]) && !IsSpace(r[|r| - 1]))
    ensures r == [] <==> forall i :: 0 <= i < |s| ==> IsSpace(s[i])
  {
    var t := TrimStart(s);
    var r := TrimEnd(t);
    assert r == [] ==> t == [];
    assert r != [] ==> exists i :: 0 <= i < |s| && !IsSpace(s[i]) by {
      if r != [] {
        assert t[0] == r[0];
        assert s[|s| - |t|] == t[0];
      }
    }
    assert r != [] ==> r[0] == t[0];
    r
  }

  /** A string with no white space at either end is its own trim. */
  lemma TrimUnspaced(s: string)
    requires s != [] && !IsSpace(s[0]) && !IsSpace(s[|s| - 1])
    ensures Trim(s) == s
  {
    assert TrimStart(s) == s;
    assert TrimEnd(s) == s;
  }

  /** A leading space makes no difference to the trim. */
  lemma TrimLeadingSpace(s: string)
    ensures Trim(" " + s) == Trim(s)
  {
    assert (" " + s)[1..] == s;
    assert TrimStart(" " + s) == TrimStart(s);
  }

  /** A trailing space makes no difference to the trim of a string with no
      white space at either end. */
  lemma TrimTrailingSpace(s: string)
    requires s != [] && !IsSpace(s[0]) && !IsSpace(s[|s| - 1])
    ensures Trim(s + " ") == s
  {
    assert TrimStart(s + " ") == s + " ";
    assert (s + " ")[..|s|] == s;
    assert TrimEnd(s) == s;
  }

  lemma TrimIdempotent(s: string)
    ensures Trim(Trim(s)) == Trim(s)
  {
    var t := Trim(s);
    if t != [] {
      assert TrimStart(t) == t;
      assert TrimEnd(t) == t;
    }
  }

  // ---------------------------------------------------------------------
  // Case folding (ASCII letters only) and the case-insensitive matches
  // ---------------------------------------------------------------------

  function LowerChar(c: char): (r: char)
    ensures !('A' <= r <= 'Z')
    ensures !('A' <= c <= 'Z') ==> r == c
  {
    if 'A' <= c <= 'Z' then (c as int + 32) as char else c
  }

  /** `s.toLowerCase()`, folding the letters A to Z. */
  function Lower(s: string): (r: string)
    ensures |r| == |s|
    ensures forall i :: 0 <= i < |s| ==> r[i] == LowerChar(s[i])
  {
    seq(|s|, i requires 0 <= i < |s| => LowerChar(s[i]))
  }

  /** A string without capitals is its own lower case. */
  lemma LowerUncapitalised(s: string)
    requires forall i :: 0 <= i < |s| ==> !('A' <= s[i] <= 'Z')
    ensures Lower(s) == s
  {
  }

  lemma LowerIdempotent(s: string)
    ensures Lower(Lower(s)) == Lower(s)
  {
  }

  /** Equality as the anchored, case-insensitive pattern `^name$` sees it. */
  predicate EqualsIgnoreCase(a: string, b: string) {
    Lower(a) == Lower(b)
  }

  /** `k` occurs in `s` as a contiguous run. */
  predicate IsInfix(k: string, s: string)
    decreases |s|
  {
    k <= s || (|s| > 0 && IsInfix(k, s[1..]))
  }

  /** `k` occurs in `s` starting at position `i`. */
  predicate OccursAt(k: string, s: string, i: int) {
    0 <= i && i + |k| <= |s| && s[i..i + |k|] == k
  }

  lemma {:induction false} IsInfixAt(k: string, s: string)
    ensures IsInfix(k, s) <==> exists i :: OccursAt(k, s, i)
    decreases |s|
  {
    if k <= s {
      assert OccursAt(k, s, 0);
    } else if |s| == 0 {
      assert forall i :: !OccursAt(k, s, i);
    } else {
      IsInfixAt(k, s[1..]);
      if exists i :: OccursAt(k, s, i) {
        var i :| OccursAt(k, s, i);
        if i > 0 {
          assert s[1..][i - 1..i - 1 + |k|] == s[i..i + |k|];
          assert OccursAt(k, s[1..], i - 1);
        }
      }
      if exists j :: OccursAt(k, s[1..], j) {
        var j :| OccursAt(k, s[1..], j);
        assert s[j + 1..j + 1 + |k|] == s[1..][j..j + |k|];
        assert OccursAt(k, s, j + 1);
      }
    }
  }

  /** The keyword filter `{ $regex: keyword, $options: 'i' }` on a plain keyword. */
  predicate ContainsIgnoreCase(s: string, keyword: string) {
    IsInfix(Lower(keyword), Lower(s))
  }

  lemma ContainsItself(s: string)
    ensures ContainsIgnoreCase(s, s)
  {
  }
}
