/**
 * opengl_have_extention: searching the GL_EXTENSIONS string, a list of
 * names separated by spaces, for one name. The list pointer may be NULL.
 */
module Extensions {
  import opened Wrappers

  /** A C string holds no NUL character before its terminator. */
  predicate CString(s: string) { '\0' !in s }

  /** The character at index k of a C string; its terminator is at |s|. */
  function CharAt(s: string, k: nat): char {
    if k < |s| then s[k] else '\0'
  }

  /** strncmp(s + i, search, |search|) == 0 for C strings. */
  predicate PrefixAt(s: string, i: nat, search: string) {
    i + |search| <= |s| && s[i .. i + |search|] == search
  }

  /**
   * strchr(s + from, ch) for a character other than NUL: the first index
   * at or after `from` that holds `ch`, or None (NULL).
   */
  function StrChr(s: string, from: nat, ch: char): (r: Option<nat>)
    requires from <= |s|
    ensures r.Some? ==> from <= r.value < |s| && s[r.value] == ch
    ensures r.Some? ==> forall j | from <= j < r.value :: s[j] != ch
    ensures r.None? ==> forall j | from <= j < |s| :: s[j] != ch
    decreases |s| - from
  {
    if from == |s| then None
    else if s[from] == ch then Some(from)
    else StrChr(s, from + 1, ch)
  }

  /** A name begins at p: a non-space character first in the list or right after a space. */
  predicate TokenStart(s: string, p: nat) {
    p < |s| && s[p] != ' ' && (p == 0 || s[p - 1] == ' ')
  }

  /** `search` is found at p and is followed by a space or by the end of the list. */
  predicate MatchAt(s: string, p: nat, search: string) {
    PrefixAt(s, p, search) && (p + |search| == |s| || s[p + |search|] == ' ')
  }

  /** The list is empty or ends in a space: the scan then compares `search` with the terminator. */
  predicate EndsInSpace(s: string) {
    |s| == 0 || s[|s| - 1] == ' '
  }

  /**
   * What opengl_have_extention answers: false for a NULL list; otherwise
   * true when some name of the list starts with `search` followed by a
   * space or the end, or when `search` is empty and the list is empty or
   * ends in a space.
   */
  predicate HasExtension(list: Option<string>, search: string) {
    list.Some? &&
    ((exists p | 0 <= p < |list.value| :: TokenStart(list.value, p) && MatchAt(list.value, p, search))
     || (search == [] && EndsInSpace(list.value)))
  }

  /** opengl_have_extention(extensions, search). */
  method HaveExtension(extensions: Option<string>, search: string) returns (found: bool)
    requires extensions.Some? ==> CString(extensions.value)
    requires CString(search)
    ensures found == HasExtension(extensions, search)
  {
    if extensions.None? {
      return false;
    }
    var s := extensions.value;
    var len := |search|;
    var cur: Option<nat> := Some(0);
    while cur.Some?
      invariant cur.Some? ==> cur.value <= |s| && (cur.value == 0 || (cur.value < |s| && s[cur.value] == ' '))
      invariant cur.Some? ==> forall p | 0 <= p < cur.value :: TokenStart(s, p) ==> !MatchAt(s, p, search)
      invariant cur.None? ==> !HasExtension(extensions, search)
      decreases if cur.Some? then |s| + 1 - cur.value else 0
    {
      var start := cur.value;
      var i := start;
      // while (*extentions == ' ') extentions++;
      while CharAt(s, i) == ' '
        invariant start <= i <= |s|
        invariant forall j | start <= j < i :: s[j] == ' '
        decreases |s| - i
      {
        i := i + 1;
      }
      var next := CharAt(s, i + len);
      if PrefixAt(s, i, search) && (next == ' ' || next == '\0') {
        assert i < |s| ==> TokenStart(s, i) && MatchAt(s, i, search);
        assert i == |s| ==> search == [] && EndsInSpace(s);
        return true;
      }
      assert i < |s| ==> TokenStart(s, i) && !MatchAt(s, i, search);
      assert i == |s| ==> !(search == [] && EndsInSpace(s)) && (forall p | start <= p < |s| :: !TokenStart(s, p));
      cur := StrChr(s, i, ' ');
    }
    return false;
  }

  /** The length of the name at the start of `s`: up to its first space, or all of it. */
  function NameLength(s: string): (n: nat)
    ensures n <= |s| && (n < |s| ==> s[n] == ' ')
    ensures forall j | 0 <= j < n :: s[j] != ' '
  {
    if s == [] || s[0] == ' ' then 0 else 1 + NameLength(s[1..])
  }

  /** The names of a list: its maximal runs of non-space characters, in order. */
  function Names(s: string): seq<string>
    decreases |s|
  {
    if s == [] then []
    else if s[0] == ' ' then Names(s[1..])
    else
      var n := NameLength(s);
      [s[..n]] + Names(s[n..])
  }

  /** Some name that begins at or after `from` matches. */
  predicate FoundFrom(s: string, from: nat, search: string) {
    exists p | from <= p < |s| :: TokenStart(s, p) && MatchAt(s, p, search)
  }

  /** Dropping a prefix that ends at a name boundary keeps the matches after it. */
  lemma FoundAfterBoundary(s: string, k: nat, search: string)
    requires 0 < k <= |s|
    requires s[k - 1] == ' ' || k == |s| || s[k] == ' '
    ensures FoundFrom(s, k, search) <==> FoundFrom(s[k..], 0, search)
  {
    var t := s[k..];
    if FoundFrom(s, k, search) {
      var p :| k <= p < |s| && TokenStart(s, p) && MatchAt(s, p, search);
      MatchShifted(s, k, p - k, search);
    }
    if FoundFrom(t, 0, search) {
      var q :| 0 <= q < |t| && TokenStart(t, q) && MatchAt(t, q, search);
      MatchShifted(s, k, q, search);
    }
  }

  /** A name at q of s[k..] is a name at k + q of s, and back, for k at a name boundary. */
  lemma MatchShifted(s: string, k: nat, q: nat, search: string)
    requires 0 < k <= |s| && q < |s| - k
    requires s[k - 1] == ' ' || k == |s| || s[k] == ' '
    ensures TokenStart(s[k..], q) && MatchAt(s[k..], q, search) <==> TokenStart(s, k + q) && MatchAt(s, k + q, search)
  {
    var t := s[k..];
    assert |t| == |s| - k;
    assert forall m | 0 <= m < |t| :: t[m] == s[k + m];
    if k + q + |search| <= |s| {
      assert t[q .. q + |search|] == s[k + q .. k + q + |search|];
    }
  }

  /**
   * For a non-empty name without spaces, opengl_have_extention answers
   * true exactly when the name is one of the names of the list; a name
   * that merely begins with `search` is not enough.
   */
  lemma {:induction false} HasExtensionIffName(s: string, search: string)
    requires search != [] && ' ' !in search
    ensures HasExtension(Some(s), search) <==> search in Names(s)
    decreases |s|
  {
    assert HasExtension(Some(s), search) <==> FoundFrom(s, 0, search);
    if s == [] {
    } else if s[0] == ' ' {
      FoundAfterBoundary(s, 1, search);
      assert FoundFrom(s, 0, search) <==> FoundFrom(s, 1, search) by {
        assert !TokenStart(s, 0);
      }
      HasExtensionIffName(s[1..], search);
      assert HasExtension(Some(s[1..]), search) <==> FoundFrom(s[1..], 0, search);
    } else {
      var n := NameLength(s);
      assert n > 0;
      var rest := s[n..];
      assert Names(s) == [s[..n]] + Names(rest);
      // the first name matches exactly when it is `search`
      assert MatchAt(s, 0, search) <==> s[..n] == search by {
        if MatchAt(s, 0, search) {
          assert forall j | 0 <= j < |search| :: s[j] == search[j] && s[j] != ' ';
          assert |search| == n;
        }
        if s[..n] == search {
          assert PrefixAt(s, 0, search);
        }
      }
      // no name begins inside the first one
      assert forall p | 0 < p < n :: !TokenStart(s, p);
      if n == |s| {
        assert rest == [];
        assert FoundFrom(s, 0, search) <==> MatchAt(s, 0, search);
      } else {
        FoundAfterBoundary(s, n, search);
        assert FoundFrom(s, 0, search) <==> MatchAt(s, 0, search) || FoundFrom(s, n, search);
        HasExtensionIffName(rest, search);
        assert HasExtension(Some(rest), search) <==> FoundFrom(rest, 0, search);
      }
    }
  }
}
