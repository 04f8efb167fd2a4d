/**
  The key-value branch of the payload decoder (`parse_generic_payload_as_kv`,
  log_parser.py): line endings are normalised, the text is split on `;` (with the white
  space after it) or on a newline, and each piece of the form `key: value` becomes an entry.
 */
module KvPayload {
  import opened Wrappers
  import opened Text
  import opened Dict

  const FallbackKey := "PayloadText"

  /** `s.replace('\r\n', '\n').replace('\r', '\n')` */
  function NormalizeNewlines(s: string): (r: string)
    ensures '\r' !in r
  {
    var r := Replace(Replace(s, "\r\n", "\n"), "\r", "\n");
    ReplaceCharRemoves(Replace(s, "\r\n", "\n"), '\r', "\n");
    r
  }

  /** `re.split(r';\s*|\n', s)`: a `;` swallows the white space after it (newlines included). */
  function Pieces(s: string): (ps: seq<string>)
    ensures |ps| >= 1
    ensures forall k | 0 <= k < |ps| :: ';' !in ps[k] && '\n' !in ps[k]
    decreases |s|
  {
    var i := FindEither(s, ';', '\n');
    if i == |s| then [s]
    else if s[i] == ';' then [s[..i]] + Pieces(TrimStart(s[i + 1..]))
    else [s[..i]] + Pieces(s[i + 1..])
  }

  /** A text without a separator is one piece. */
  lemma PiecesOfPlain(x: string)
    requires ';' !in x && '\n' !in x
    ensures Pieces(x) == [x]
  {
    FindEitherIs(x, ';', '\n', |x|);
  }

  /** A `;` ends the piece before it, and the white space after it is dropped. */
  lemma PiecesAtSemicolon(x: string, y: string)
    requires ';' !in x && '\n' !in x
    ensures Pieces(x + ";" + y) == [x] + Pieces(TrimStart(y))
  {
    var s := x + ";" + y;
    FindEitherIs(s, ';', '\n', |x|);
    assert s[..|x|] == x && s[|x| + 1..] == y;
  }

  /** A newline ends the piece before it; the text after it is split as it stands. */
  lemma PiecesAtNewline(x: string, y: string)
    requires ';' !in x && '\n' !in x
    ensures Pieces(x + "\n" + y) == [x] + Pieces(y)
  {
    var s := x + "\n" + y;
    FindEitherIs(s, ';', '\n', |x|);
    assert s[..|x|] == x && s[|x| + 1..] == y;
  }

  /** The character class `[a-zA-Z0-9_.\s-]` of the key. */
  predicate KeyChar(c: char) {
    ('a' <= c <= 'z') || ('A' <= c <= 'Z') || ('0' <= c <= '9') || c == '_' || c == '.' || c == '-' || IsSpace(c)
  }

  /** Every character is in the key class. */
  predicate KeyRun(s: string) {
    forall j | 0 <= j < |s| :: KeyChar(s[j])
  }

  /** `re.match(r'^\s*([a-zA-Z0-9_.\s-]+?)\s*:\s*(.*)$', p)` on a piece without newlines,
      followed by `.strip()` of both groups. The key class excludes `:`, so the colon that
      matches is the first one, and the text before it must be a non-empty run of key
      characters. */
  function MatchPair(p: string): (m: Option<(string, string)>)
    ensures m.Some? ==> ':' !in m.value.0 && |m.value.0| + |m.value.1| < |p|
  {
    var i := Find(p, ':');
    if 0 < i < |p| && KeyRun(p[..i]) then
      StripKeepsOut(p[..i], ':');
      Some((Strip(p[..i]), Strip(p[i + 1..])))
    else
      None
  }

  /** A piece matches exactly when some colon is preceded by a non-empty run of key
      characters. */
  lemma MatchPairIff(p: string)
    ensures MatchPair(p).Some? <==> exists i | 0 < i < |p| :: p[i] == ':' && KeyRun(p[..i])
  {
    if exists i | 0 < i < |p| :: p[i] == ':' && KeyRun(p[..i]) {
      var i :| 0 < i < |p| && p[i] == ':' && KeyRun(p[..i]);
      forall j | 0 <= j < i ensures p[j] != ':' {
        assert KeyChar(p[..i][j]);
      }
      FindIs(p, ':', i);
    }
  }

  /** A piece `key: value` whose key is a run of key characters matches at its colon. */
  lemma MatchPairOf(k: string, v: string)
    requires k != "" && KeyRun(k)
    ensures MatchPair(k + ":" + v) == Some((Strip(k), Strip(v)))
  {
    var p := k + ":" + v;
    forall j | 0 <= j < |k| ensures p[j] != ':' {
      assert KeyChar(k[j]);
    }
    FindIs(p, ':', |k|);
    assert p[..|k|] == k && p[|k| + 1..] == v;
  }

  /** The mapping the loop over `pairs` has built after the pieces `ps`, in order. */
  function Collect(ps: seq<string>): (d: Dict<string>)
    ensures UniqueKeys(d)
    decreases |ps|
  {
    if ps == [] then [] else AddPiece(Collect(ps[..|ps| - 1]), ps[|ps| - 1])
  }

  /** One turn of the loop: a non-blank piece that matches stores its key and value. */
  function AddPiece(d: Dict<string>, piece: string): (r: Dict<string>)
    requires UniqueKeys(d)
    ensures UniqueKeys(r)
  {
    var p := Strip(piece);
    if p == "" then d
    else
      var m := MatchPair(p);
      if m.Some? then Put(d, m.value.0, m.value.1) else d
  }

  lemma CollectNext(ps: seq<string>, i: nat)
    requires i < |ps|
    ensures Collect(ps[..i + 1]) == AddPiece(Collect(ps[..i]), ps[i])
  {
    assert ps[..i + 1][..i] == ps[..i];
  }

  /** The whole function, with the `PayloadText` fallback. */
  function KvDetails(payload: string): Dict<string> {
    var d := Collect(Pieces(NormalizeNewlines(payload)));
    if d == [] && !IsBlank(payload) then [(FallbackKey, payload)] else d
  }

  /** Text without a carriage return is left alone by the newline normalisation. */
  lemma NormalizeWithoutCr(s: string)
    requires '\r' !in s
    ensures NormalizeNewlines(s) == s
  {
    if Contains(s, "\r\n") {
      ContainsKeepsChar(s, "\r\n", '\r');
    }
    ReplaceAbsent(s, "\r\n", "\n");
    if Contains(s, "\r") {
      ContainsKeepsChar(s, "\r", '\r');
    }
    ReplaceAbsent(s, "\r", "\n");
  }

  /** Two separator-free pieces joined by `; ` are split apart again. */
  lemma PiecesOfTwo(p1: string, p2: string)
    requires ';' !in p1 && '\n' !in p1 && ';' !in p2 && '\n' !in p2
    requires p2 == [] || !IsSpace(p2[0])
    ensures Pieces(p1 + "; " + p2) == [p1, p2]
  {
    var tail := " " + p2;
    assert p1 + "; " + p2 == p1 + ";" + tail;
    assert tail[1..] == p2;
    assert TrimStart(tail) == p2;
    PiecesAtSemicolon(p1, tail);
    PiecesOfPlain(p2);
  }

  /** The loop over two pieces. */
  lemma CollectTwo(p1: string, p2: string)
    ensures Collect([p1, p2]) == AddPiece(AddPiece([], p1), p2)
  {
    var ps := [p1, p2];
    CollectNext(ps, 0);
    CollectNext(ps, 1);
    assert ps[..0] == [] && ps[..2] == ps;
  }

  /** A stripped piece `key: value` stores its key and value. */
  lemma AddPieceOfPair(d: Dict<string>, k: string, v: string)
    requires UniqueKeys(d)
    requires k != "" && KeyRun(k) && Stripped(k) && v != "" && Stripped(v)
    ensures AddPiece(d, k + ": " + v) == Put(d, k, v)
  {
    var p := k + ": " + v;
    assert p[0] == k[0] && p[|p| - 1] == v[|v| - 1];
    StripOfStripped(p);
    MatchPairOfStripped(k, v);
  }

  /** A piece `key: value` with stripped key and value matches as `(key, value)`. */
  lemma MatchPairOfStripped(k: string, v: string)
    requires k != "" && KeyRun(k) && Stripped(k) && v != "" && Stripped(v)
    ensures MatchPair(k + ": " + v) == Some((k, v))
  {
    assert k + ": " + v == k + ":" + (" " + v);
    MatchPairOf(k, " " + v);
    StripOfStripped(k);
    StripSpaceFirst(v);
  }

  /** No `;`, newline or carriage return: the text stays within one piece. */
  predicate NoSeparator(s: string) {
    ';' !in s && '\n' !in s && '\r' !in s
  }

  lemma NoSeparatorPair(k: string, v: string)
    requires NoSeparator(k) && NoSeparator(v)
    ensures NoSeparator(k + ": " + v)
  {
  }

  /** Two `key: value` pieces separated by `; ` give two entries, in order. */
  lemma TwoPairs(k1: string, v1: string, k2: string, v2: string)
    requires k1 != "" && KeyRun(k1) && Stripped(k1) && v1 != "" && Stripped(v1)
    requires k2 != "" && KeyRun(k2) && Stripped(k2) && v2 != "" && Stripped(v2)
    requires k1 != k2
    requires NoSeparator(k1) && NoSeparator(v1) && NoSeparator(k2) && NoSeparator(v2)
    ensures KvDetails((k1 + ": " + v1) + "; " + (k2 + ": " + v2)) == [(k1, v1), (k2, v2)]
  {
    var p1 := k1 + ": " + v1;
    var p2 := k2 + ": " + v2;
    NoSeparatorPair(k1, v1);
    NoSeparatorPair(k2, v2);
    assert p2[0] == k2[0];
    SplitTwo(p1, p2);
    CollectTwoPairs(k1, v1, k2, v2);
  }

  lemma SplitTwo(p1: string, p2: string)
    requires NoSeparator(p1) && NoSeparator(p2)
    requires p2 == [] || !IsSpace(p2[0])
    ensures Pieces(NormalizeNewlines(p1 + "; " + p2)) == [p1, p2]
  {
    var s := p1 + "; " + p2;
    assert s == p1 + ("; " + p2);
    assert '\r' !in "; " + p2;
    NormalizeWithoutCr(s);
    PiecesOfTwo(p1, p2);
  }

  lemma CollectTwoPairs(k1: string, v1: string, k2: string, v2: string)
    requires k1 != "" && KeyRun(k1) && Stripped(k1) && v1 != "" && Stripped(v1)
    requires k2 != "" && KeyRun(k2) && Stripped(k2) && v2 != "" && Stripped(v2)
    requires k1 != k2
    ensures Collect([k1 + ": " + v1, k2 + ": " + v2]) == [(k1, v1), (k2, v2)]
  {
    CollectTwo(k1 + ": " + v1, k2 + ": " + v2);
    AddFirstPair(k1, v1);
    AddSecondPair(k1, v1, k2, v2);
  }

  lemma AddFirstPair(k: string, v: string)
    requires k != "" && KeyRun(k) && Stripped(k) && v != "" && Stripped(v)
    ensures AddPiece([], k + ": " + v) == [(k, v)]
  {
    AddPieceOfPair([], k, v);
    PutNew([], k, v);
  }

  lemma AddSecondPair(k1: string, v1: string, k2: string, v2: string)
    requires k2 != "" && KeyRun(k2) && Stripped(k2) && v2 != "" && Stripped(v2)
    requires k1 != k2
    ensures AddPiece([(k1, v1)], k2 + ": " + v2) == [(k1, v1), (k2, v2)]
  {
    var d := [(k1, v1)];
    assert Keys(d) == [k1];
    AddPieceOfPair(d, k2, v2);
    PutNew(d, k2, v2);
  }

  /** The documented example `User: bob; Action: login`. */
  lemma KvExample()
    ensures KvDetails("User: bob; Action: login") == [("User", "bob"), ("Action", "login")]
  {
    PlainWord("User");
    PlainWord("bob");
    PlainWord("Action");
    PlainWord("login");
    assert "User: bob; Action: login" == ("User" + ": " + "bob") + "; " + ("Action" + ": " + "login");
    TwoPairs("User", "bob", "Action", "login");
  }

  /** A word of letters is a stripped, separator-free run of key characters. */
  lemma PlainWord(w: string)
    requires w != "" && forall j | 0 <= j < |w| :: 'a' <= w[j] <= 'z' || 'A' <= w[j] <= 'Z'
    ensures KeyRun(w) && Stripped(w) && NoSeparator(w)
  {
  }

  /** `parse_generic_payload_as_kv`. Its `except` branch is unreachable for a string input. */
  method ParseGenericPayloadAsKv(payload: string) returns (details: Dict<string>)
    ensures details == KvDetails(payload)
    ensures !IsBlank(payload) ==> details != []
    ensures IsBlank(payload) ==> details == []
    ensures UniqueKeys(details)
  {
    var normalized := NormalizeNewlines(payload);
    var pairs := Pieces(normalized);
    details := CollectPairs(pairs);
    if details == [] && Strip(payload) != "" {
      details := [(FallbackKey, payload)];
    }
    if IsBlank(payload) {
      BlankHasNoPairs(payload);
    }
  }

  /** The `for pair_str in pairs` loop. */
  method CollectPairs(pairs: seq<string>) returns (details: Dict<string>)
    ensures details == Collect(pairs)
  {
    details := [];
    var i := 0;
    while i < |pairs|
      invariant 0 <= i <= |pairs|
      invariant details == Collect(pairs[..i])
    {
      CollectNext(pairs, i);
      ghost var before := details;
      var pair := Strip(pairs[i]);
      if pair != "" {
        var m := MatchPair(pair);
        if m.Some? {
          details := Put(details, m.value.0, m.value.1);
        }
      }
      assert details == AddPiece(before, pairs[i]);
      i := i + 1;
    }
    WholeSlice(pairs);
  }

  /** The value of the last piece that matches with key `k`: the reference for "later
      duplicates overwrite earlier ones". */
  function LastMatch(ps: seq<string>, k: string): Option<string>
    decreases |ps|
  {
    if ps == [] then None
    else
      var p := Strip(ps[|ps| - 1]);
      var m := MatchPair(p);
      if p != "" && m.Some? && m.value.0 == k then Some(m.value.1) else LastMatch(ps[..|ps| - 1], k)
  }

  /** Each key maps to the value of its last occurrence. */
  lemma {:induction false} LastDuplicateWins(ps: seq<string>, k: string)
    ensures Get(Collect(ps), k) == LastMatch(ps, k)
    decreases |ps|
  {
    if ps != [] {
      LastDuplicateWins(ps[..|ps| - 1], k);
    }
  }

  /** A blank payload yields no piece with a key. */
  lemma BlankHasNoPairs(payload: string)
    requires IsBlank(payload)
    ensures Collect(Pieces(NormalizeNewlines(payload))) == []
  {
    var n := NormalizeNewlines(payload);
    NormalizeKeepsBlank(payload);
    BlankPieces(n);
    CollectOfBlankPieces(Pieces(n));
  }

  lemma NormalizeKeepsBlank(s: string)
    requires IsBlank(s)
    ensures IsBlank(NormalizeNewlines(s))
  {
    ReplaceKeepsBlank(s, "\r\n", "\n");
    ReplaceKeepsBlank(Replace(s, "\r\n", "\n"), "\r", "\n");
  }

  lemma {:induction false} ReplaceKeepsBlank(s: string, pat: string, rep: string)
    requires pat != [] && IsBlank(s) && IsBlank(rep)
    ensures IsBlank(Replace(s, pat, rep))
    decreases |s|
  {
    if |s| >= |pat| {
      if s[..|pat|] == pat {
        ReplaceKeepsBlank(s[|pat|..], pat, rep);
      } else {
        ReplaceKeepsBlank(s[1..], pat, rep);
      }
    }
  }

  lemma {:induction false} BlankPieces(s: string)
    requires IsBlank(s)
    ensures forall k | 0 <= k < |Pieces(s)| :: IsBlank(Pieces(s)[k])
    decreases |s|
  {
    var i := FindEither(s, ';', '\n');
    if i < |s| {
      // a blank text has no `;`, so every separator is a newline
      BlankPieces(s[i + 1..]);
    }
  }

  lemma {:induction false} CollectOfBlankPieces(ps: seq<string>)
    requires forall k | 0 <= k < |ps| :: IsBlank(ps[k])
    ensures Collect(ps) == []
    decreases |ps|
  {
    if ps != [] {
      CollectOfBlankPieces(ps[..|ps| - 1]);
    }
  }

  /** A piece without a usable key contributes nothing; with no such piece at all, the
      result is exactly the original (un-normalised) payload under `PayloadText`. */
  lemma FallbackKeepsOriginal(payload: string)
    requires !IsBlank(payload)
    requires forall k | 0 <= k < |Pieces(NormalizeNewlines(payload))| :: MatchPair(Strip(Pieces(NormalizeNewlines(payload))[k])).None?
    ensures KvDetails(payload) == [(FallbackKey, payload)]
  {
    NoMatchNoEntries(Pieces(NormalizeNewlines(payload)));
  }

  lemma {:induction false} NoMatchNoEntries(ps: seq<string>)
    requires forall k | 0 <= k < |ps| :: MatchPair(Strip(ps[k])).None?
    ensures Collect(ps) == []
    decreases |ps|
  {
    if ps != [] {
      NoMatchNoEntries(ps[..|ps| - 1]);
    }
  }
}
