// `numeroParaExtenso` (supabase/edge_functions/generate-document/index.ts): a whole number in
// Portuguese words, from 0 to 999; larger numbers come back as decimal digits, and negative
// numbers index past the tables, which JavaScript answers with `undefined`.

module NumberWords {
  import opened Wrappers
  import opened Text

  const Unidades := ["", "um", "dois", "três", "quatro", "cinco", "seis", "sete", "oito", "nove"]
  const Dezenas := ["", "", "vinte", "trinta", "quarenta", "cinquenta", "sessenta", "setenta", "oitenta", "noventa"]
  const Especiais := ["dez", "onze", "doze", "treze", "quatorze", "quinze", "dezesseis", "dezessete", "dezoito", "dezenove"]
  const Centenas := ["", "cento", "duzentos", "trezentos", "quatrocentos", "quinhentos", "seiscentos", "setecentos", "oitocentos", "novecentos"]

  /** `numeroParaExtenso(num)`; `None` is `undefined`. */
  function Extenso(num: int): (r: Option<string>)
    ensures num >= 0 <==> r.Some?
    ensures num >= 1000 ==> r == Some(NatToString(num))
    decreases if num < 0 then 0 else num
  {
    if num == 0 then Some("zero")
    else if num < 10 then (if num < 0 then None else Some(Unidades[num]))
    else if num < 20 then Some(Especiais[num - 10])
    else if num < 100 then
      var d := num / 10;
      var u := num % 10;
      Some(if u == 0 then Dezenas[d] else Dezenas[d] + " e " + Unidades[u])
    else if num < 1000 then
      var c := num / 100;
      var resto := num % 100;
      if resto == 0 then Some(Centenas[c]) else Some(Centenas[c] + " e " + Extenso(resto).value)
    else Some(NatToString(num))
  }

  // ------------------------------------------------------------ the words

  /** The words the function strings together, each naming its table and position. */
  datatype Word = Zero | Unit(u: nat) | Teen(t: nat) | Tens(d: nat) | Hundreds(c: nat) | And

  predicate InRange(w: Word) {
    match w
    case Zero => true
    case Unit(u) => 1 <= u <= 9
    case Teen(t) => t <= 9
    case Tens(d) => 2 <= d <= 9
    case Hundreds(c) => 1 <= c <= 9
    case And => true
  }

  function Spell(w: Word): string
    requires InRange(w)
  {
    match w
    case Zero => "zero"
    case Unit(u) => Unidades[u]
    case Teen(t) => Especiais[t]
    case Tens(d) => Dezenas[d]
    case Hundreds(c) => Centenas[c]
    case And => "e"
  }

  /** The words for `n` below 1000, in order. */
  function Words(n: nat): (ws: seq<Word>)
    requires n < 1000
    ensures ws != [] && forall i :: 0 <= i < |ws| ==> InRange(ws[i])
  {
    if n == 0 then [Zero]
    else if n < 10 then [Unit(n)]
    else if n < 20 then [Teen(n - 10)]
    else if n < 100 then (if n % 10 == 0 then [Tens(n / 10)] else [Tens(n / 10), And, Unit(n % 10)])
    else if n % 100 == 0 then [Hundreds(n / 100)]
    else [Hundreds(n / 100), And] + Words(n % 100)
  }

  function SpellAll(ws: seq<Word>): (r: seq<string>)
    requires forall i :: 0 <= i < |ws| ==> InRange(ws[i])
    ensures |r| == |ws|
  {
    if ws == [] then [] else [Spell(ws[0])] + SpellAll(ws[1..])
  }

  /** A number from 1 to 99 read back from its words. */
  function SmallValue(ws: seq<Word>): Option<nat> {
    if |ws| == 1 && ws[0].Unit? && 1 <= ws[0].u <= 9 then Some(ws[0].u)
    else if |ws| == 1 && ws[0].Teen? && ws[0].t <= 9 then Some(10 + ws[0].t)
    else if |ws| == 1 && ws[0].Tens? && 2 <= ws[0].d <= 9 then Some(10 * ws[0].d)
    else if |ws| == 3 && ws[0].Tens? && 2 <= ws[0].d <= 9 && ws[1] == And && ws[2].Unit? && 1 <= ws[2].u <= 9 then
      Some(10 * ws[0].d + ws[2].u)
    else None
  }

  /** The number a list of words denotes, read independently of how `Words` builds it. */
  function Value(ws: seq<Word>): Option<nat> {
    if ws == [Zero] then Some(0)
    else if |ws| == 1 && ws[0].Hundreds? && 1 <= ws[0].c <= 9 then Some(100 * ws[0].c)
    else if |ws| >= 3 && ws[0].Hundreds? && 1 <= ws[0].c <= 9 && ws[1] == And && SmallValue(ws[2..]).Some? then
      Some(100 * ws[0].c + SmallValue(ws[2..]).value)
    else SmallValue(ws)
  }

  /** Reading the words back gives the number: the words of two different numbers differ. */
  lemma WordsRoundTrip(n: nat)
    requires n < 1000
    ensures Value(Words(n)) == Some(n)
  {
    if n >= 100 && n % 100 != 0 {
      var ws := Words(n);
      assert ws[2..] == Words(n % 100);
      assert SmallValue(Words(n % 100)) == Some(n % 100);
    }
  }

  lemma WordsInjective(m: nat, n: nat)
    requires m < 1000 && n < 1000 && Words(m) == Words(n)
    ensures m == n
  {
    WordsRoundTrip(m);
    WordsRoundTrip(n);
  }

  /** `Extenso` below 1000 is the words, spelled and joined by single spaces. */
  lemma {:induction false} ExtensoSpellsWords(n: nat)
    requires n < 1000
    ensures Extenso(n) == Some(Join(SpellAll(Words(n)), " "))
    decreases n
  {
    var ws := Words(n);
    if n >= 20 && n < 100 && n % 10 != 0 {
      ExtensoTens(n);
    } else if n >= 100 && n % 100 != 0 {
      ExtensoSpellsWords(n % 100);
      ExtensoHundreds(n);
    } else {
      assert SpellAll(ws) == [Spell(ws[0])];
    }
  }

  lemma ExtensoTens(n: nat)
    requires 20 <= n < 100 && n % 10 != 0
    ensures Extenso(n) == Some(Join(SpellAll(Words(n)), " "))
  {
    var d, u := Dezenas[n / 10], Unidades[n % 10];
    SpellThree(Tens(n / 10), And, Unit(n % 10));
    assert SpellAll(Words(n)) == [d, "e"] + [u];
    JoinAfterTwo(d, "e", [u], " ");
    var sep := " ";
    assert Join([u], sep) == u;
    calc {
      d + sep + "e" + sep + u;
      d + (sep + "e" + sep) + u;
      { assert sep + "e" + sep == " e "; }
      d + " e " + u;
    }
  }

  lemma ExtensoHundreds(n: nat)
    requires 100 <= n < 1000 && n % 100 != 0
    requires Extenso(n % 100) == Some(Join(SpellAll(Words(n % 100)), " "))
    ensures Extenso(n) == Some(Join(SpellAll(Words(n)), " "))
  {
    var c, rest := Centenas[n / 100], Words(n % 100);
    assert Extenso(n) == Some(c + " e " + Extenso(n % 100).value);
    var head := [Hundreds(n / 100), And];
    assert Words(n) == head + rest;
    SpellAllConcat(head, rest);
    SpellTwo(Hundreds(n / 100), And);
    assert SpellAll(Words(n)) == [c, "e"] + SpellAll(rest);
    var sep, j := " ", Join(SpellAll(rest), " ");
    JoinAfterTwo(c, "e", SpellAll(rest), sep);
    calc {
      c + sep + "e" + sep + j;
      c + (sep + "e" + sep) + j;
      { assert sep + "e" + sep == " e "; }
      c + " e " + j;
    }
  }

  lemma SpellTwo(a: Word, b: Word)
    requires InRange(a) && InRange(b)
    ensures SpellAll([a, b]) == [Spell(a), Spell(b)]
  {
    assert [a, b][1..] == [b];
  }

  lemma SpellThree(a: Word, b: Word, c: Word)
    requires InRange(a) && InRange(b) && InRange(c)
    ensures SpellAll([a, b, c]) == [Spell(a), Spell(b), Spell(c)]
  {
    assert [a, b, c][1..] == [b, c];
    SpellTwo(b, c);
  }

  lemma {:induction false} SpellAllConcat(a: seq<Word>, b: seq<Word>)
    requires forall i :: 0 <= i < |a| ==> InRange(a[i])
    requires forall i :: 0 <= i < |b| ==> InRange(b[i])
    ensures SpellAll(a + b) == SpellAll(a) + SpellAll(b)
  {
    if a != [] {
      assert (a + b)[1..] == a[1..] + b;
      SpellAllConcat(a[1..], b);
      assert (a + b)[0] == a[0];
    } else {
      assert a + b == b;
    }
  }

  lemma JoinAfterTwo(x: string, y: string, rest: seq<string>, sep: string)
    requires rest != []
    ensures Join([x, y] + rest, sep) == x + sep + y + sep + Join(rest, sep)
  {
    assert ([x, y] + rest)[1..] == [y] + rest;
    assert ([y] + rest)[1..] == rest;
  }

  /** Examples: one unit, a compound ten, and the exact hundred as written ("cento"). */
  lemma ExtensoThree() ensures Extenso(3) == Some("três") {}
  lemma ExtensoTwentyOne() ensures Extenso(21) == Some("vinte e um")
  {
    assert Dezenas[2] + " e " + Unidades[1] == "vinte e um";
  }
  lemma ExtensoHundred() ensures Extenso(100) == Some("cento") {}
  lemma ExtensoZero() ensures Extenso(0) == Some("zero") {}
  lemma ExtensoNegative(n: int) requires n < 0 ensures Extenso(n).None? {}
}
