// `fillTemplate`, present twice with the same text (supabase/edge_functions/generate-document/index.ts
// and supabase/edge_functions/generate-sindicancia-doc/index.ts): for each data entry in order,
// every `{{key}}` token of the page is replaced by the entry's value, or by "" when the value is
// missing or empty.

module Template {
  import opened Wrappers
  import opened Text

  /** One `[key, value]` of `Object.entries(data)`; a missing value (`undefined`) is `None`. */
  datatype Entry = Entry(key: string, value: Option<string>)

  /** `value || ''`. */
  function ValueText(e: Entry): string {
    e.value.GetOr("")
  }

  /** The placeholder of a key. */
  function Token(key: string): (r: string)
    ensures |r| == |key| + 4
  {
    "{{" + key + "}}"
  }

  /** The substitutions applied one after another, in entry order. */
  function FillSpec(template: string, data: seq<Entry>): string
    decreases |data|
  {
    if data == [] then template
    else FillSpec(ReplaceAll(template, Token(data[0].key), ValueText(data[0])), data[1..])
  }

  /** `fillTemplate`: a loop over the entries, reassigning the page each time. */
  method FillTemplate(template: string, data: seq<Entry>) returns (filled: string)
    ensures filled == FillSpec(template, data)
  {
    filled := template;
    var i := 0;
    while i < |data|
      invariant 0 <= i <= |data|
      invariant FillSpec(filled, data[i..]) == FillSpec(template, data)
    {
      assert data[i..][1..] == data[i + 1..];
      filled := ReplaceAll(filled, Token(data[i].key), ValueText(data[i]));
      i := i + 1;
    }
    assert data[i..] == [];
  }

  // ----------------------------------------------------- templates as pieces

  /** Key characters never include braces (the keys used are letters and underscores). */
  predicate KeyChars(k: string) {
    forall i :: 0 <= i < |k| ==> k[i] != '{' && k[i] != '}'
  }

  /** Every `{` is followed, inside the text, by something other than `{`: no `{{` starts here. */
  predicate BraceSafe(x: string) {
    forall i :: 0 <= i < |x| && x[i] == '{' ==> i + 1 < |x| && x[i + 1] != '{'
  }

  /** A page is plain text interleaved with placeholders. */
  datatype Piece = Lit(text: string) | Hole(key: string)

  function PieceText(p: Piece): string {
    match p
    case Lit(t) => t
    case Hole(k) => Token(k)
  }

  function Render(ps: seq<Piece>): string {
    if ps == [] then "" else PieceText(ps[0]) + Render(ps[1..])
  }

  predicate WellFormed(ps: seq<Piece>) {
    forall i :: 0 <= i < |ps| ==> (ps[i].Lit? ==> BraceSafe(ps[i].text)) && (ps[i].Hole? ==> KeyChars(ps[i].key))
  }

  /** Entries the theorem speaks about: brace-free keys and values that start no `{{`. */
  predicate DataSafe(data: seq<Entry>) {
    forall i :: 0 <= i < |data| ==> KeyChars(data[i].key) && BraceSafe(ValueText(data[i]))
  }

  /** The first entry for `k`, as `Object.entries` of an object has at most one. */
  function Lookup(data: seq<Entry>, k: string): (r: Option<Entry>)
    ensures r.Some? ==> r.value in data && r.value.key == k
    ensures r.None? ==> forall i :: 0 <= i < |data| ==> data[i].key != k
  {
    if data == [] then None
    else if data[0].key == k then Some(data[0])
    else Lookup(data[1..], k)
  }

  /** The page that filling should give: each placeholder with an entry becomes its value, the others stay. */
  function Instantiate(ps: seq<Piece>, data: seq<Entry>): (r: seq<Piece>)
    ensures |r| == |ps|
  {
    if ps == [] then []
    else
      var head := match ps[0]
        case Lit(t) => Lit(t)
        case Hole(k) => if Lookup(data, k).Some? then Lit(ValueText(Lookup(data, k).value)) else Hole(k);
      [head] + Instantiate(ps[1..], data)
  }

  /** Replacing one key's placeholders by a value, at the level of pieces. */
  function SubstKey(ps: seq<Piece>, k: string, v: string): (r: seq<Piece>)
    ensures |r| == |ps|
  {
    if ps == [] then []
    else [if ps[0] == Hole(k) then Lit(v) else ps[0]] + SubstKey(ps[1..], k, v)
  }

  lemma TokenChars(k: string)
    ensures Token(k)[0] == '{' && Token(k)[1] == '{'
    ensures forall j :: 0 <= j < |k| ==> Token(k)[j + 2] == k[j]
    ensures Token(k)[|k| + 2] == '}' && Token(k)[|k| + 3] == '}'
  {
  }

  /** No occurrence of a placeholder starts inside brace-safe text. */
  lemma SkipBraceSafe(t: string, rest: string, k: string, v: string)
    requires BraceSafe(t)
    ensures ReplaceAll(t + rest, Token(k), v) == t + ReplaceAll(rest, Token(k), v)
  {
    var s := t + rest;
    var pat := Token(k);
    TokenChars(k);
    forall i | 0 <= i < |t| ensures !OccursAt(s, pat, i) {
      if i + |pat| <= |s| {
        var w := s[i..i + |pat|];
        if t[i] == '{' {
          assert w[1] == t[i + 1];
        } else {
          assert w[0] == t[i];
        }
      }
    }
    ReplaceAllSkip(t, rest, pat, v);
  }

  /** No occurrence of the placeholder of `k` starts inside the placeholder of another key `k2`. */
  lemma SkipOtherToken(k2: string, rest: string, k: string, v: string)
    requires KeyChars(k) && KeyChars(k2) && k != k2
    ensures ReplaceAll(Token(k2) + rest, Token(k), v) == Token(k2) + ReplaceAll(rest, Token(k), v)
  {
    var s := Token(k2) + rest;
    var pat := Token(k);
    TokenChars(k);
    TokenChars(k2);
    forall i | 0 <= i < |Token(k2)| ensures !OccursAt(s, pat, i) {
      if i + |pat| <= |s| {
        var w := s[i..i + |pat|];
        if i == 0 {
          if |k| < |k2| {
            assert w[|k| + 2] == k2[|k|];
          } else if |k| > |k2| {
            assert w[|k2| + 2] == '}';
          } else {
            var m :| 0 <= m < |k| && k[m] != k2[m];
            assert w[m + 2] == k2[m];
          }
        } else if i == 1 {
          assert w[1] == s[2];
        } else {
          assert w[0] == s[i];
        }
      }
    }
    ReplaceAllSkip(Token(k2), rest, pat, v);
  }

  /** One substitution on a rendered page is the substitution on its pieces. */
  lemma {:induction false} ReplaceRendered(ps: seq<Piece>, k: string, v: string)
    requires WellFormed(ps) && KeyChars(k)
    ensures ReplaceAll(Render(ps), Token(k), v) == Render(SubstKey(ps, k, v))
  {
    if ps != [] {
      ReplaceRendered(ps[1..], k, v);
      var rest := Render(ps[1..]);
      match ps[0]
      case Lit(t) =>
        SkipBraceSafe(t, rest, k, v);
      case Hole(k2) =>
        if k2 == k {
          ReplaceAllHead(Token(k), rest, v);
        } else {
          SkipOtherToken(k2, rest, k, v);
        }
    }
  }

  lemma {:induction false} SubstKeyWellFormed(ps: seq<Piece>, k: string, v: string)
    requires WellFormed(ps) && BraceSafe(v)
    ensures WellFormed(SubstKey(ps, k, v))
  {
    if ps != [] {
      SubstKeyWellFormed(ps[1..], k, v);
      var r := SubstKey(ps, k, v);
      forall i | 0 <= i < |r| ensures (r[i].Lit? ==> BraceSafe(r[i].text)) && (r[i].Hole? ==> KeyChars(r[i].key)) {
        if i > 0 {
          assert r[i] == SubstKey(ps[1..], k, v)[i - 1];
        }
      }
    }
  }

  /** Substituting the first entry, then the others, is instantiating with all of them. */
  lemma {:induction false} InstantiateStep(ps: seq<Piece>, data: seq<Entry>)
    requires data != []
    ensures Instantiate(SubstKey(ps, data[0].key, ValueText(data[0])), data[1..]) == Instantiate(ps, data)
  {
    if ps != [] {
      InstantiateStep(ps[1..], data);
    }
  }

  /**
   * Filling a page made of brace-safe text and placeholders replaces every placeholder whose key
   * has an entry by the first such entry's value (so all repeated placeholders of a key), and
   * leaves the placeholders of other keys verbatim, whatever the order of the entries.
   */
  lemma {:induction false} FillRendered(ps: seq<Piece>, data: seq<Entry>)
    requires WellFormed(ps) && DataSafe(data)
    ensures FillSpec(Render(ps), data) == Render(Instantiate(ps, data))
    decreases |data|
  {
    if data == [] {
      InstantiateNothing(ps);
    } else {
      var e := data[0];
      ReplaceRendered(ps, e.key, ValueText(e));
      SubstKeyWellFormed(ps, e.key, ValueText(e));
      var ps' := SubstKey(ps, e.key, ValueText(e));
      assert DataSafe(data[1..]) by {
        forall i | 0 <= i < |data[1..]| ensures KeyChars(data[1..][i].key) && BraceSafe(ValueText(data[1..][i])) {
          assert data[1..][i] == data[i + 1];
        }
      }
      FillRendered(ps', data[1..]);
      InstantiateStep(ps, data);
    }
  }

  lemma {:induction false} InstantiateNothing(ps: seq<Piece>)
    ensures Instantiate(ps, []) == ps
  {
    if ps != [] {
      InstantiateNothing(ps[1..]);
    }
  }

  /** A key that is a prefix of another (`nome` and `nome_colaborador`) never touches the longer placeholder. */
  lemma PrefixKeyLeavesLongerToken(k: string, k2: string, v: string)
    requires KeyChars(k) && KeyChars(k2) && k != k2
    ensures ReplaceAll(Token(k2), Token(k), v) == Token(k2)
  {
    SkipOtherToken(k2, "", k, v);
    assert Token(k2) + "" == Token(k2);
  }
}
