/**
 * The `queryFormat` hook the connector installs in its pool: named placeholders
 * `:name` in the SQL text are replaced by the escaped value of the parameter of
 * that name. The source does this with `query.replace(/:(\w+)/g, callback)`.
 *
 * `Substitute` models that single left-to-right, greedy pass directly. Beside it,
 * `Scan` cuts the text into pieces (single characters and placeholders) and
 * `Render` says what each piece becomes; the lemmas prove that the pieces are the
 * unique greedy decomposition of the text, that they spell the text back, and that
 * `Substitute` is exactly the rendering of those pieces.
 */
module Placeholders {
  import opened Wrappers

  /** `\w` of a JavaScript regular expression without the `u` flag: `[A-Za-z0-9_]`. */
  predicate IsWordChar(c: char) {
    'A' <= c <= 'Z' || 'a' <= c <= 'z' || '0' <= c <= '9' || c == '_'
  }

  /** A possible placeholder name: what `\w+` can match. */
  predicate IsName(s: string) {
    |s| > 0 && forall k :: 0 <= k < |s| ==> IsWordChar(s[k])
  }

  /** How far the greedy `\w+` reaches from the start of `s`: the longest prefix of word characters. */
  function WordRun(s: string): (n: nat)
    ensures n <= |s|
    ensures forall k :: 0 <= k < n ==> IsWordChar(s[k])
    ensures n < |s| ==> !IsWordChar(s[n])
  {
    if s == [] || !IsWordChar(s[0]) then 0 else 1 + WordRun(s[1..])
  }

  /**
   * One pass of `replace(/:(\w+)/g, …)`: at each position, a `:` followed by at
   * least one word character starts a match that takes the longest run of word
   * characters as its name; a match whose name is a key of `values` becomes
   * `escape(values[name])`, any other match stays as it was; every other
   * character is copied. The scan resumes after the match, so inserted text is
   * never looked at again.
   */
  function Substitute<V>(q: string, values: map<string, V>, escape: V -> string): (r: string)
    ensures values == map[] ==> r == q
    decreases |q|
  {
    if q == [] then []
    else
      var n := if q[0] == ':' then WordRun(q[1..]) else 0;
      if n == 0 then
        assert [q[0]] + q[1..] == q;
        [q[0]] + Substitute(q[1..], values, escape)
      else
        var name := q[1..1 + n];
        assert q[..1 + n] + q[1 + n..] == q;
        (if name in values then escape(values[name]) else q[..1 + n])
          + Substitute(q[1 + n..], values, escape)
  }

  /**
   * The `queryFormat(query, values)` callback: without values the text is returned
   * as it is; otherwise every placeholder of the text is rendered once.
   */
  function QueryFormat<V>(q: string, values: Option<map<string, V>>, escape: V -> string): (r: string)
    ensures values.None? ==> r == q
    ensures values.Some? ==> r == Render(Scan(q), values.value, escape)
  {
    match values
    case None => q
    case Some(m) => SubstituteRendersScan(q, m, escape); Substitute(q, m, escape)
  }

  // ---------------------------------------------------------------------------
  // Reference view: the text as a sequence of pieces
  // ---------------------------------------------------------------------------

  /** A piece of SQL text: one character copied as it is, or one `:name` placeholder. */
  datatype Piece = Char(c: char) | Placeholder(name: string)

  /** The text a piece stands for in the original statement. */
  function Spell(p: Piece): string {
    match p
    case Char(c) => [c]
    case Placeholder(name) => [':'] + name
  }

  function Spelling(ps: seq<Piece>): string {
    if ps == [] then [] else Spell(ps[0]) + Spelling(ps[1..])
  }

  /** What a piece becomes in the formatted statement. */
  function Rendered<V>(p: Piece, values: map<string, V>, escape: V -> string): string {
    match p
    case Char(c) => [c]
    case Placeholder(name) => if name in values then escape(values[name]) else Spell(p)
  }

  function Render<V>(ps: seq<Piece>, values: map<string, V>, escape: V -> string): string {
    if ps == [] then [] else Rendered(ps[0], values, escape) + Render(ps[1..], values, escape)
  }

  /** A piece after which a word character would have been swallowed by the greedy match. */
  predicate Greedy(p: Piece) {
    p.Placeholder? || p == Char(':')
  }

  predicate StartsWord(p: Piece) {
    p.Char? && IsWordChar(p.c)
  }

  /**
   * A decomposition the regular expression could have produced: every placeholder
   * has a non-empty word name, and no `:` or placeholder is directly followed by a
   * word character that it would have taken into its match.
   */
  ghost predicate WellFormed(ps: seq<Piece>) {
    (forall i :: 0 <= i < |ps| && ps[i].Placeholder? ==> IsName(ps[i].name)) &&
    (forall i :: 0 <= i < |ps| - 1 && Greedy(ps[i]) ==> !StartsWord(ps[i + 1]))
  }

  /** The names of the placeholders among `ps`. */
  ghost function Names(ps: seq<Piece>): set<string> {
    set i | 0 <= i < |ps| && ps[i].Placeholder? :: ps[i].name
  }

  /** The greedy left-to-right decomposition of `q` into pieces. */
  function Scan(q: string): seq<Piece>
    decreases |q|
  {
    if q == [] then []
    else
      var n := if q[0] == ':' then WordRun(q[1..]) else 0;
      if n == 0 then [Char(q[0])] + Scan(q[1..])
      else [Placeholder(q[1..1 + n])] + Scan(q[1 + n..])
  }

  // ---------------------------------------------------------------------------
  // Lemmas
  // ---------------------------------------------------------------------------

  /** A name followed by a non-word character is matched exactly: the run stops at its end. */
  lemma WordRunOfName(name: string, rest: string)
    requires IsName(name)
    requires rest == [] || !IsWordChar(rest[0])
    ensures WordRun(name + rest) == |name|
  {
    var s := name + rest;
    assert forall k :: 0 <= k < |name| ==> s[k] == name[k];
    assert |s| > |name| ==> s[|name|] == rest[0];
  }

  /** A character that does not start a match becomes one `Char` piece. */
  lemma ScanChar(c: char, rest: string)
    requires c == ':' ==> rest == [] || !IsWordChar(rest[0])
    ensures Scan([c] + rest) == [Char(c)] + Scan(rest)
  {
    assert ([c] + rest)[1..] == rest;
  }

  /** A colon and a maximal word run become one `Placeholder` piece. */
  lemma ScanPlaceholder(name: string, rest: string)
    requires IsName(name)
    requires rest == [] || !IsWordChar(rest[0])
    ensures Scan([':'] + name + rest) == [Placeholder(name)] + Scan(rest)
  {
    var q := [':'] + name + rest;
    assert q[1..] == name + rest;
    WordRunOfName(name, rest);
    assert q[1..1 + |name|] == name;
    assert q[1 + |name|..] == rest;
  }

  lemma WellFormedTail(ps: seq<Piece>)
    requires ps != [] && WellFormed(ps)
    ensures WellFormed(ps[1..])
  {
    var tail := ps[1..];
    forall i | 0 <= i < |tail| - 1 && Greedy(tail[i])
      ensures !StartsWord(tail[i + 1])
    {
      assert tail[i] == ps[i + 1] && tail[i + 1] == ps[i + 2];
    }
    forall i | 0 <= i < |tail| && tail[i].Placeholder?
      ensures IsName(tail[i].name)
    {
      assert tail[i] == ps[i + 1];
    }
  }

  /** In a well-formed sequence, the text after a greedy first piece does not start with a word character. */
  lemma GreedyFollow(ps: seq<Piece>)
    requires ps != [] && WellFormed(ps) && Greedy(ps[0])
    ensures Spelling(ps[1..]) == [] || !IsWordChar(Spelling(ps[1..])[0])
  {
    if |ps| > 1 {
      SpellingHead(ps[1..]);
      assert !StartsWord(ps[1]);
    }
  }

  lemma SpellingCons(p: Piece, ps: seq<Piece>)
    ensures Spelling([p] + ps) == Spell(p) + Spelling(ps)
  {
    assert ([p] + ps)[1..] == ps;
  }

  lemma RenderCons<V>(p: Piece, ps: seq<Piece>, values: map<string, V>, escape: V -> string)
    ensures Render([p] + ps, values, escape) == Rendered(p, values, escape) + Render(ps, values, escape)
  {
    assert ([p] + ps)[1..] == ps;
  }

  /** Nothing is lost or added by the decomposition: the pieces spell the text. */
  lemma {:induction false} ScanSpellsText(q: string)
    ensures Spelling(Scan(q)) == q
    decreases |q|
  {
    if q != [] {
      var n := if q[0] == ':' then WordRun(q[1..]) else 0;
      if n == 0 {
        ScanSpellsText(q[1..]);
        SpellingCons(Char(q[0]), Scan(q[1..]));
        assert [q[0]] + q[1..] == q;
      } else {
        ScanSpellsText(q[1 + n..]);
        SpellingCons(Placeholder(q[1..1 + n]), Scan(q[1 + n..]));
        assert [':'] + q[1..1 + n] + q[1 + n..] == q;
      }
    }
  }

  /** The first piece of a non-empty text starts with the text's first character. */
  lemma ScanHead(q: string)
    requires q != []
    ensures Scan(q) != []
    ensures StartsWord(Scan(q)[0]) ==> IsWordChar(q[0])
  {
  }

  /** The decomposition is one the regular expression could produce. */
  lemma {:induction false} ScanWellFormed(q: string)
    ensures WellFormed(Scan(q))
    decreases |q|
  {
    if q != [] {
      var n := if q[0] == ':' then WordRun(q[1..]) else 0;
      var rest := if n == 0 then q[1..] else q[1 + n..];
      ScanWellFormed(rest);
      var ps := Scan(q);
      assert ps[1..] == Scan(rest);
      if rest != [] {
        ScanHead(rest);
        assert Greedy(ps[0]) ==> !IsWordChar(rest[0]);
      }
      forall i | 0 <= i < |ps| - 1 && Greedy(ps[i])
        ensures !StartsWord(ps[i + 1])
      {
        if i > 0 {
          assert ps[i] == Scan(rest)[i - 1];
        }
      }
      forall i | 0 <= i < |ps| && ps[i].Placeholder?
        ensures IsName(ps[i].name)
      {
        if i > 0 {
          assert ps[i] == Scan(rest)[i - 1];
        }
      }
    }
  }

  /** The text of a non-empty piece sequence starts with the first character of its first piece. */
  lemma SpellingHead(ps: seq<Piece>)
    requires ps != []
    ensures Spelling(ps) != []
    ensures Spelling(ps)[0] == (if ps[0].Char? then ps[0].c else ':')
  {
  }

  /**
   * The greedy decomposition is the only well-formed one: any well-formed pieces
   * that spell `q` are `Scan(q)`. In particular a placeholder's name is always the
   * whole run of word characters after its colon, never a prefix of it.
   */
  lemma {:induction false} ScanUnique(ps: seq<Piece>, q: string)
    requires WellFormed(ps)
    requires Spelling(ps) == q
    ensures ps == Scan(q)
    decreases |ps|
  {
    if ps != [] {
      var tail := ps[1..];
      var rest := Spelling(tail);
      WellFormedTail(ps);
      ScanUnique(tail, rest);
      assert ps == [ps[0]] + tail;
      SpellingCons(ps[0], tail);
      if Greedy(ps[0]) {
        GreedyFollow(ps);
      }
      match ps[0]
      case Char(c) =>
        ScanChar(c, rest);
      case Placeholder(name) =>
        assert q == [':'] + name + rest;
        ScanPlaceholder(name, rest);
    }
  }

  /** `Substitute` is exactly the piece-by-piece rendering of the greedy decomposition. */
  lemma {:induction false} SubstituteRendersScan<V>(q: string, values: map<string, V>, escape: V -> string)
    ensures Substitute(q, values, escape) == Render(Scan(q), values, escape)
    decreases |q|
  {
    if q != [] {
      var n := if q[0] == ':' then WordRun(q[1..]) else 0;
      if n == 0 {
        SubstituteRendersScan(q[1..], values, escape);
        assert Scan(q)[1..] == Scan(q[1..]);
      } else {
        SubstituteRendersScan(q[1 + n..], values, escape);
        assert Scan(q)[1..] == Scan(q[1 + n..]);
        assert q[..1 + n] == [':'] + q[1..1 + n];
      }
    }
  }

  /**
   * The formatted statement is determined by ANY well-formed decomposition of the
   * text: each placeholder whose name is a key becomes its escaped value, each
   * other placeholder and every other character is kept.
   */
  lemma SubstituteSpec<V>(q: string, ps: seq<Piece>, values: map<string, V>, escape: V -> string)
    requires WellFormed(ps) && Spelling(ps) == q
    ensures Substitute(q, values, escape) == Render(ps, values, escape)
  {
    ScanUnique(ps, q);
    SubstituteRendersScan(q, values, escape);
  }

  lemma {:induction false} RenderUnbound<V>(ps: seq<Piece>, values: map<string, V>, escape: V -> string)
    requires Names(ps) !! values.Keys
    ensures Render(ps, values, escape) == Spelling(ps)
  {
    if ps != [] {
      assert Names(ps[1..]) <= Names(ps) by {
        forall x | x in Names(ps[1..]) ensures x in Names(ps) {
          var i :| 0 <= i < |ps[1..]| && ps[1..][i].Placeholder? && ps[1..][i].name == x;
          assert ps[i + 1] == ps[1..][i];
        }
      }
      if ps[0].Placeholder? {
        assert ps[0].name in Names(ps);
      }
      RenderUnbound(ps[1..], values, escape);
    }
  }

  /**
   * A statement in which no placeholder names a key of `values` (for instance,
   * empty `values`) comes back unchanged.
   */
  lemma UnboundIsIdentity<V>(q: string, values: map<string, V>, escape: V -> string)
    requires Names(Scan(q)) !! values.Keys
    ensures Substitute(q, values, escape) == q
  {
    SubstituteRendersScan(q, values, escape);
    RenderUnbound(Scan(q), values, escape);
    ScanSpellsText(q);
  }

  /** Text before the first colon is copied unchanged, whatever follows it. */
  lemma {:induction false} LiteralPrefix<V>(t: string, q: string, values: map<string, V>, escape: V -> string)
    requires forall k :: 0 <= k < |t| ==> t[k] != ':'
    ensures Substitute(t + q, values, escape) == t + Substitute(q, values, escape)
    decreases |t|
  {
    if t == [] {
      assert t + q == q;
    } else {
      assert (t + q)[0] == t[0];
      assert (t + q)[1..] == t[1..] + q;
      LiteralPrefix(t[1..], q, values, escape);
    }
  }

  /**
   * One placeholder: `:name` followed by a non-word character (or the end of the
   * text) becomes `escape(values[name])` when `name` is a key and stays `:name`
   * otherwise, and scanning resumes right after it.
   */
  lemma PlaceholderStep<V>(name: string, rest: string, values: map<string, V>, escape: V -> string)
    requires IsName(name)
    requires rest == [] || !IsWordChar(rest[0])
    ensures Substitute([':'] + name + rest, values, escape)
         == (if name in values then escape(values[name]) else [':'] + name) + Substitute(rest, values, escape)
  {
    var q := [':'] + name + rest;
    assert q[1..] == name + rest;
    WordRunOfName(name, rest);
    assert q[1..1 + |name|] == name;
    assert q[1 + |name|..] == rest;
  }

  /** A colon that is not followed by a word character is copied through. */
  lemma LoneColon<V>(rest: string, values: map<string, V>, escape: V -> string)
    requires rest == [] || !IsWordChar(rest[0])
    ensures Substitute([':'] + rest, values, escape) == [':'] + Substitute(rest, values, escape)
  {
    assert ([':'] + rest)[1..] == rest;
  }

  // ---------------------------------------------------------------------------
  // Worked examples
  // ---------------------------------------------------------------------------

  /** A statement ending in one bound placeholder, with no colon before it, gets that parameter's escaped value in its place. */
  lemma TrailingPlaceholder<V>(t: string, name: string, values: map<string, V>, escape: V -> string)
    requires forall k :: 0 <= k < |t| ==> t[k] != ':'
    requires IsName(name) && name in values
    ensures QueryFormat(t + [':'] + name, Some(values), escape) == t + escape(values[name])
  {
    LiteralPrefix(t, [':'] + name + "", values, escape);
    PlaceholderStep(name, "", values, escape);
    assert t + [':'] + name == t + ([':'] + name + "");
  }

  /** `SELECT * FROM t WHERE id = :id` with `{id: 5}` becomes `SELECT * FROM t WHERE id = 5`. */
  lemma ExampleSelectById(escape: int -> string)
    requires escape(5) == "5"
    ensures QueryFormat("SELECT * FROM t WHERE id = :id", Some(map["id" := 5]), escape)
         == "SELECT * FROM t WHERE id = 5"
  {
    var t := "SELECT * FROM t WHERE id = ";
    assert forall k :: 0 <= k < |t| ==> t[k] != ':';
    TrailingPlaceholder(t, "id", map["id" := 5], escape);
    assert t + [':'] + "id" == "SELECT * FROM t WHERE id = :id";
  }

  /** With only `id` bound, `:idx` is left whole: the name is the full word run, never a prefix of it. */
  lemma ExampleLongerNameKept<V>(v: V, escape: V -> string)
    ensures Substitute(":idx", map["id" := v], escape) == ":idx"
  {
    assert "idx" != "id";
    PlaceholderStep("idx", "", map["id" := v], escape);
    assert [':'] + "idx" + "" == ":idx";
  }

  /** An escaped value that itself looks like a placeholder is not substituted again. */
  lemma ExampleNoRescan(escape: int -> string)
    requires escape(1) == ":b"
    ensures Substitute(":a", map["a" := 1, "b" := 2], escape) == ":b"
  {
    PlaceholderStep("a", "", map["a" := 1, "b" := 2], escape);
    assert [':'] + "a" + "" == ":a";
  }
}
