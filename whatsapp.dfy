/**
 * The "buy on WhatsApp" link of the storefront: the message built from a template, and the
 * `wa.me` link around the digits of the configured number. `encodeURIComponent` and the
 * `String(...)` conversion of a non-string setting are passed in.
 */
module WhatsApp {
  import opened Text
  import opened Js

  const NAME_MARK := "{NOME}"
  const CITY_MARK := "{CIDADE}"
  const NAME_FALLBACK := "este produto"
  const CITY_FALLBACK := "Sinop-MT"
  const TO_ORDER_STATUS := "SOB_ENCOMENDA"
  const TO_ORDER_SENTENCE := " Entendo que é sob encomenda. Qual o prazo?"
  const NO_LINK := "#"

  /** The pieces of the default template around its two placeholders. */
  const TEMPLATE_HEAD := "Olá! Vi o produto "
  const TEMPLATE_MIDDLE := " no seu catálogo. Sou de "
  const TEMPLATE_TAIL := ". Ele está disponível? Gostaria de comprar/combinar entrega em Sinop–MT."
  const DEFAULT_TEMPLATE := TEMPLATE_HEAD + NAME_MARK + TEMPLATE_MIDDLE + CITY_MARK + TEMPLATE_TAIL

  /** The first offset at or after `from` where `p` occurs in `s`, or -1 when there is none. */
  function FirstOccurrence(s: string, p: string, from: nat): (i: int)
    ensures i == -1 || (from <= i && OccursAt(s, p, i))
    ensures forall j :: from <= j && (i == -1 || j < i) ==> !OccursAt(s, p, j)
    decreases |s| - from
  {
    if from + |p| > |s| then -1
    else if s[from..from + |p|] == p then from
    else FirstOccurrence(s, p, from + 1)
  }

  /**
   * The replacement text `replace` inserts for a string pattern, which has no capture groups:
   * `$$` gives `$`, `$&` the matched text, `` $` `` the text before the match and `$'` the
   * text after it; any other `$` stands for itself.
   */
  function Expand(x: string, matched: string, before: string, after: string): string
    decreases |x|
  {
    if x == [] then []
    else if x[0] == '$' && |x| >= 2 && (x[1] == '$' || x[1] == '&' || x[1] == '`' || x[1] == '\'') then
      (if x[1] == '$' then "$" else if x[1] == '&' then matched else if x[1] == '`' then before else after)
      + Expand(x[2..], matched, before, after)
    else [x[0]] + Expand(x[1..], matched, before, after)
  }

  /** A replacement without `$` is inserted as it is. */
  lemma {:induction false} ExpandLiteral(x: string, matched: string, before: string, after: string)
    requires '$' !in x
    ensures Expand(x, matched, before, after) == x
  {
    if x != [] {
      assert x[0] != '$';
      assert '$' !in x[1..] by {
        assert forall c :: c in x[1..] ==> c in x;
      }
      ExpandLiteral(x[1..], matched, before, after);
      assert x == [x[0]] + x[1..];
    }
  }

  /** `$&` puts the matched placeholder back: a name `A$&B` yields `A{NOME}B`. */
  lemma ExpandMatchedText(before: string, after: string)
    ensures Expand("A$&B", NAME_MARK, before, after) == "A" + NAME_MARK + "B"
  {
    assert "A$&B"[1..] == "$&B" && "$&B"[2..] == "B";
    assert Expand("B", NAME_MARK, before, after) == "B" by {
      ExpandLiteral("B", NAME_MARK, before, after);
    }
  }

  /**
   * `s.replace(p, x)` with a string pattern: only the first occurrence is replaced, by `x`
   * with its `$` patterns expanded.
   */
  function ReplaceFirst(s: string, p: string, x: string): string
    requires p != []
  {
    var i := FirstOccurrence(s, p, 0);
    if i < 0 then s else s[..i] + Expand(x, p, s[..i], s[i + |p|..]) + s[i + |p|..]
  }

  /** A text without an occurrence of the pattern is left as it is. */
  lemma ReplaceFirstAbsent(s: string, p: string, x: string)
    requires p != []
    requires forall i :: !OccursAt(s, p, i)
    ensures ReplaceFirst(s, p, x) == s
  {
  }

  /** Only the leftmost occurrence of the pattern is replaced, by the expanded replacement. */
  lemma ReplaceFirstLeftmost(s: string, p: string, x: string, i: int)
    requires p != []
    requires OccursAt(s, p, i) && forall j :: 0 <= j < i ==> !OccursAt(s, p, j)
    ensures ReplaceFirst(s, p, x) == s[..i] + Expand(x, p, s[..i], s[i + |p|..]) + s[i + |p|..]
  {
  }

  /** Replacing in `a + p + rest`, where `a` holds no first character of `p`, puts `x` in place of that `p`. */
  lemma ReplaceAfterPrefix(a: string, p: string, rest: string, x: string)
    requires p != [] && p[0] !in a
    ensures ReplaceFirst(a + (p + rest), p, x) == a + Expand(x, p, a, rest) + rest
  {
    var s := a + (p + rest);
    PlaceholderAfterPrefix(a, p, rest);
    ReplaceFirstLeftmost(s, p, x, |a|);
    assert ReplaceFirst(s, p, x) == s[..|a|] + Expand(x, p, s[..|a|], s[|a| + |p|..]) + s[|a| + |p|..];
    assert s[..|a|] == a;
    assert s[|a| + |p|..] == rest;
  }

  /** In `a + p + rest`, where `a` holds no first character of `p`, the first `p` is right after `a`. */
  lemma PlaceholderAfterPrefix(a: string, p: string, rest: string)
    requires p != [] && p[0] !in a
    ensures OccursAt(a + (p + rest), p, |a|)
    ensures forall j :: 0 <= j < |a| ==> !OccursAt(a + (p + rest), p, j)
  {
    var s := a + (p + rest);
    assert s[|a|..|a| + |p|] == p;
    forall j | 0 <= j < |a|
      ensures !OccursAt(s, p, j)
    {
      assert s[j] == a[j];
    }
  }

  /** `template || default`, then the first `{NOME}` and first `{CIDADE}`, then the to-order sentence. */
  function Message(nomeProduto: string, cidade: string, status: string, template: string): string {
    var base := if template == "" then DEFAULT_TEMPLATE else template;
    var named := ReplaceFirst(base, NAME_MARK, if nomeProduto == "" then NAME_FALLBACK else nomeProduto);
    var placed := ReplaceFirst(named, CITY_MARK, if cidade == "" then CITY_FALLBACK else cidade);
    placed + (if status == TO_ORDER_STATUS then TO_ORDER_SENTENCE else "")
  }

  /**
   * With the default template, a product name holding no `{` and a name and a city holding no
   * `$`, the message is the default sentence with the name and the city in place, followed by
   * the to-order sentence exactly for products made to order.
   */
  lemma DefaultMessage(nomeProduto: string, cidade: string, status: string)
    requires '{' !in nomeProduto && '$' !in nomeProduto && '$' !in cidade
    ensures var nome := if nomeProduto == "" then NAME_FALLBACK else nomeProduto;
      var city := if cidade == "" then CITY_FALLBACK else cidade;
      Message(nomeProduto, cidade, status, "") ==
        TEMPLATE_HEAD + nome + TEMPLATE_MIDDLE + city + TEMPLATE_TAIL
        + (if status == TO_ORDER_STATUS then TO_ORDER_SENTENCE else "")
  {
    var nome := if nomeProduto == "" then NAME_FALLBACK else nomeProduto;
    var city := if cidade == "" then CITY_FALLBACK else cidade;
    NoBraceInTemplate();
    assert '{' !in nome && '$' !in nome && '$' !in city;
    FillBoth(TEMPLATE_HEAD, TEMPLATE_MIDDLE, TEMPLATE_TAIL, nome, city);
  }

  /** The default template has no `{` before its placeholders. */
  lemma NoBraceInTemplate()
    ensures '{' !in TEMPLATE_HEAD && '{' !in TEMPLATE_MIDDLE
  {
  }

  /** Filling a `{NOME}`-then-`{CIDADE}` template whose text before the city holds no `{`. */
  lemma FillBoth(head: string, middle: string, tail: string, nome: string, city: string)
    requires '{' !in head && '{' !in middle && '{' !in nome
    requires '$' !in nome && '$' !in city
    ensures ReplaceFirst(ReplaceFirst(head + NAME_MARK + middle + CITY_MARK + tail, NAME_MARK, nome), CITY_MARK, city)
      == head + nome + middle + city + tail
  {
    var afterName := middle + CITY_MARK + tail;
    assert head + NAME_MARK + middle + CITY_MARK + tail == head + (NAME_MARK + afterName);
    ReplaceAfterPrefix(head, NAME_MARK, afterName, nome);
    ExpandLiteral(nome, NAME_MARK, head, afterName);
    var front := head + nome + middle;
    assert '{' !in front by {
      assert forall c :: c in front ==> c in head || c in nome || c in middle;
    }
    assert head + nome + afterName == front + (CITY_MARK + tail);
    ReplaceAfterPrefix(front, CITY_MARK, tail, city);
    ExpandLiteral(city, CITY_MARK, front, tail);
  }

  /** `String(whatsappNumero)`: a string as it is, anything else through `stringOf`. */
  function NumberText(whatsappNumero: Json, stringOf: Json -> string): string {
    if whatsappNumero.JString? then whatsappNumero.s else stringOf(whatsappNumero)
  }

  /**
   * `generateWhatsAppLink`: `#` when the number is falsy or has no digit (a number that is
   * blank after trimming has none); otherwise `https://wa.me/<its digits>?text=<the encoded
   * message>`.
   */
  function GenerateWhatsAppLink(nomeProduto: string, cidade: string, status: string, whatsappNumero: Json,
                                template: string, stringOf: Json -> string, encode: string -> string): (r: string)
    ensures r == NO_LINK <==> Falsy(whatsappNumero) || Digits(NumberText(whatsappNumero, stringOf)) == []
    ensures r != NO_LINK ==>
      r == "https://wa.me/" + Digits(NumberText(whatsappNumero, stringOf)) + "?text="
           + encode(Message(nomeProduto, cidade, status, template))
  {
    if Falsy(whatsappNumero) then NO_LINK
    else
      var numero := Trim(NumberText(whatsappNumero, stringOf));
      if numero == "" then
        DigitsOfTrim(NumberText(whatsappNumero, stringOf));
        NO_LINK
      else
        var message := Message(nomeProduto, cidade, status, template);
        DigitsOfTrim(NumberText(whatsappNumero, stringOf));
        var cleanNumber := Digits(numero);
        if cleanNumber == "" then NO_LINK
        else
          assert ("https://wa.me/" + cleanNumber)[0] == 'h';
          "https://wa.me/" + cleanNumber + "?text=" + encode(message)
  }
}
