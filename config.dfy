/**
 * The store settings (`config` table, one text `valor` per unique `chave`): reading them back
 * as JSON where they parse, the defaults the getters fill in, and the upsert of `updateConfig`.
 * `JSON.parse`, `JSON.stringify` and the text SQLite stores for a bound number are passed in.
 */
module Config {
  import opened Wrappers
  import opened Js
  import opened Schema

  /** The keys of `DEFAULT_CONFIG`, in their order. */
  const DEFAULT_KEYS: seq<string> :=
    ["precoPorGrama", "whatsappNumero", "whatsappTemplate", "linkLojaMercadoLivre", "localizacao", "politicaLocal"]

  /** The default message template, with its `{NOME}` and `{CIDADE}` placeholders. */
  const DEFAULT_TEMPLATE :=
    "Olá! Vi o produto {NOME} no seu catálogo. Sou de {CIDADE}. Ele está disponível? Gostaria de comprar/combinar entrega em Sinop–MT."

  /** The value `DEFAULT_CONFIG` gives a key; the two empty ones are tested first. */
  function Default(key: string): string
    requires key in DEFAULT_KEYS
  {
    if key == "whatsappNumero" || key == "linkLojaMercadoLivre" then ""
    else if key == "precoPorGrama" then "1.00"
    else if key == "whatsappTemplate" then DEFAULT_TEMPLATE
    else if key == "localizacao" then "Sinop – Mato Grosso"
    else "Entregas locais sem frete / combine pelo WhatsApp"
  }

  /** `try { JSON.parse(valor) } catch { valor }`. */
  function Decode(valor: string, parse: string -> Option<Json>): (r: Json)
    ensures parse(valor).Some? ==> r == parse(valor).value
    ensures parse(valor).None? ==> r == JString(valor)
  {
    if parse(valor).Some? then parse(valor).value else JString(valor)
  }

  /** Every stored setting, decoded. */
  function Decoded(config: map<string, string>, parse: string -> Option<Json>): (r: map<string, Json>)
    ensures r.Keys == config.Keys
    ensures forall k :: k in r ==> r[k] == Decode(config[k], parse)
  {
    map k | k in config :: Decode(config[k], parse)
  }

  /** The `forEach` over the rows that builds `configObj`. */
  method DecodeConfig(config: map<string, string>, parse: string -> Option<Json>) returns (obj: map<string, Json>)
    ensures obj == Decoded(config, parse)
  {
    obj := map[];
    var rest := config.Keys;
    while rest != {}
      invariant rest <= config.Keys
      invariant obj.Keys == config.Keys - rest
      invariant forall k :: k in obj ==> obj[k] == Decode(config[k], parse)
      decreases |rest|
    {
      var k :| k in rest;
      obj := obj[k := Decode(config[k], parse)];
      rest := rest - {k};
    }
  }

  /**
   * The `forEach` over `DEFAULT_CONFIG`: every default key is present afterwards, a missing
   * or falsy value is replaced by its default, and every other entry is kept.
   */
  method FillDefaults(obj: map<string, Json>) returns (r: map<string, Json>)
    ensures forall k :: k in r <==> k in obj || k in DEFAULT_KEYS
    ensures forall k :: k in DEFAULT_KEYS && (k !in obj || Falsy(obj[k])) ==> r[k] == JString(Default(k))
    ensures forall k :: k in obj && !(k in DEFAULT_KEYS && Falsy(obj[k])) ==> r[k] == obj[k]
  {
    r := obj;
    for i := 0 to |DEFAULT_KEYS|
      invariant forall k :: k in r <==> k in obj || k in DEFAULT_KEYS[..i]
      invariant forall k :: k in DEFAULT_KEYS[..i] && (k !in obj || Falsy(obj[k])) ==> r[k] == JString(Default(k))
      invariant forall k :: k in obj && !(k in DEFAULT_KEYS[..i] && Falsy(obj[k])) ==> r[k] == obj[k]
    {
      var key := DEFAULT_KEYS[i];
      assert forall k :: k in DEFAULT_KEYS[..i + 1] <==> k in DEFAULT_KEYS[..i] || k == key;
      if key !in r || Falsy(r[key]) {
        r := r[key := JString(Default(key))];
      }
    }
    assert DEFAULT_KEYS[..|DEFAULT_KEYS|] == DEFAULT_KEYS;
  }

  /**
   * `getPublicConfig` and `getAdminConfig`: every stored setting decoded, plus every default
   * key; a default replaces a missing or falsy value.
   */
  method GetConfig(db: Database, parse: string -> Option<Json>) returns (r: map<string, Json>)
    ensures forall k :: k in r <==> k in db.config || k in DEFAULT_KEYS
    ensures forall k :: k in DEFAULT_KEYS && (k !in db.config || Falsy(Decode(db.config[k], parse))) ==>
      r[k] == JString(Default(k))
    ensures forall k :: k in db.config && !(k in DEFAULT_KEYS && Falsy(Decode(db.config[k], parse))) ==>
      r[k] == Decode(db.config[k], parse)
  {
    var obj := DecodeConfig(db.config, parse);
    r := FillDefaults(obj);
  }

  /** After the defaults, only `whatsappNumero` and `linkLojaMercadoLivre` (the second and fourth keys) can still read as falsy. */
  lemma FilledDefaultsTruthy(i: int)
    requires 0 <= i < |DEFAULT_KEYS|
    ensures Falsy(JString(Default(DEFAULT_KEYS[i]))) <==> i == 1 || i == 3
  {
    var k := DEFAULT_KEYS[i];
    DefaultEmptyExactly(k);
    if i == 0 {
      assert k == "precoPorGrama";
    } else if i == 1 {
      assert k == "whatsappNumero";
    } else if i == 2 {
      assert k == "whatsappTemplate";
    } else if i == 3 {
      assert k == "linkLojaMercadoLivre";
    } else if i == 4 {
      assert k == "localizacao";
    } else {
      assert k == "politicaLocal";
    }
  }

  /** Only `whatsappNumero` and `linkLojaMercadoLivre` default to the empty text. */
  lemma DefaultEmptyExactly(k: string)
    requires k in DEFAULT_KEYS
    ensures Default(k) == "" <==> k == "whatsappNumero" || k == "linkLojaMercadoLivre"
  {
  }

  /**
   * The text `updateConfig` binds for a body value: objects, arrays and null (whose `typeof`
   * is `object`) through `JSON.stringify`, strings as they are, numbers as SQLite renders them
   * in a TEXT column; `None` for a boolean, which the driver refuses to bind.
   */
  function Stored(v: Json, stringify: Json -> string, numberText: real -> string): (r: Option<string>)
    ensures r.None? <==> v.JBool?
    ensures v.JString? ==> r == Some(v.s)
    ensures v.JNumber? ==> r == Some(numberText(v.n))
    ensures v.JNull? || v.JArray? || v.JObject? ==> r == Some(stringify(v))
  {
    match v
    case JBool(_) => None
    case JString(s) => Some(s)
    case JNumber(n) => Some(numberText(n))
    case _ => Some(stringify(v))
  }

  /** The index of the first body entry that cannot be bound, or the body's length. */
  function FirstUnbindable(updates: seq<(string, Json)>): (n: nat)
    ensures n <= |updates|
    ensures forall i :: 0 <= i < n ==> !updates[i].1.JBool?
    ensures n < |updates| ==> updates[n].1.JBool?
  {
    if updates == [] then 0
    else if updates[0].1.JBool? then 0
    else 1 + FirstUnbindable(updates[1..])
  }

  /** The table after upserting each entry in order: an existing `chave` is updated, a new one inserted. */
  function Upserted(config: map<string, string>, updates: seq<(string, Json)>,
                    stringify: Json -> string, numberText: real -> string): (r: map<string, string>)
    requires forall i :: 0 <= i < |updates| ==> !updates[i].1.JBool?
    decreases |updates|
  {
    if updates == [] then config
    else
      var last := updates[|updates| - 1];
      Upserted(config, updates[..|updates| - 1], stringify, numberText)[last.0 := Stored(last.1, stringify, numberText).value]
  }

  /** The index of the last body entry for `k`, or -1 when there is none. */
  function LastEntry(updates: seq<(string, Json)>, k: string): (l: int)
    ensures -1 <= l < |updates|
    ensures l >= 0 ==> updates[l].0 == k
    ensures forall j :: l < j < |updates| ==> updates[j].0 != k
  {
    if updates == [] then -1
    else if updates[|updates| - 1].0 == k then |updates| - 1
    else LastEntry(updates[..|updates| - 1], k)
  }

  /**
   * The upsert touches exactly the keys of the body: they are present afterwards, holding the
   * value of their last entry; every other setting is unchanged.
   */
  lemma UpsertedEntries(config: map<string, string>, updates: seq<(string, Json)>,
                        stringify: Json -> string, numberText: real -> string, k: string)
    requires forall i :: 0 <= i < |updates| ==> !updates[i].1.JBool?
    ensures (exists i :: 0 <= i < |updates| && updates[i].0 == k) ==>
      && k in Upserted(config, updates, stringify, numberText)
      && exists i :: 0 <= i < |updates| && updates[i].0 == k
           && (forall j :: i < j < |updates| ==> updates[j].0 != k)
           && Some(Upserted(config, updates, stringify, numberText)[k]) == Stored(updates[i].1, stringify, numberText)
    ensures (forall i :: 0 <= i < |updates| ==> updates[i].0 != k) ==>
      (k in Upserted(config, updates, stringify, numberText) <==> k in config)
      && (k in config ==> Upserted(config, updates, stringify, numberText)[k] == config[k])
  {
    var l := LastEntry(updates, k);
    if l >= 0 {
      UpsertedWritten(config, updates, stringify, numberText, k);
      assert Some(Upserted(config, updates, stringify, numberText)[k]) == Stored(updates[l].1, stringify, numberText);
    } else {
      UpsertedUntouched(config, updates, stringify, numberText, k);
    }
  }

  /** A key of the body ends up holding the stored value of its last entry. */
  lemma {:induction false} UpsertedWritten(config: map<string, string>, updates: seq<(string, Json)>,
                                           stringify: Json -> string, numberText: real -> string, k: string)
    requires forall i :: 0 <= i < |updates| ==> !updates[i].1.JBool?
    requires LastEntry(updates, k) >= 0
    ensures k in Upserted(config, updates, stringify, numberText)
    ensures Some(Upserted(config, updates, stringify, numberText)[k]) ==
      Stored(updates[LastEntry(updates, k)].1, stringify, numberText)
    decreases |updates|
  {
    var n := |updates| - 1;
    if updates[n].0 != k {
      var init := updates[..n];
      UpsertedWritten(config, init, stringify, numberText, k);
      assert updates[LastEntry(updates, k)] == init[LastEntry(init, k)];
    }
  }

  /** A key absent from the body keeps its presence and its value. */
  lemma {:induction false} UpsertedUntouched(config: map<string, string>, updates: seq<(string, Json)>,
                                             stringify: Json -> string, numberText: real -> string, k: string)
    requires forall i :: 0 <= i < |updates| ==> !updates[i].1.JBool?
    requires forall i :: 0 <= i < |updates| ==> updates[i].0 != k
    ensures k in Upserted(config, updates, stringify, numberText) <==> k in config
    ensures k in config ==> Upserted(config, updates, stringify, numberText)[k] == config[k]
    decreases |updates|
  {
    if updates != [] {
      var init := updates[..|updates| - 1];
      assert forall i :: 0 <= i < |init| ==> init[i] == updates[i];
      UpsertedUntouched(config, init, stringify, numberText, k);
    }
  }

  /**
   * A setting written with a value that `JSON.parse` reads back from its stored text is
   * returned as that value by the next `getAdminConfig` or `getPublicConfig`, unless it is a
   * falsy value of a default key.
   */
  lemma UpdateReadsBack(config: map<string, string>, k: string, v: Json, stringify: Json -> string,
                        numberText: real -> string, parse: string -> Option<Json>)
    requires !v.JBool?
    requires parse(Stored(v, stringify, numberText).value) == Some(v)
    ensures Decode(Upserted(config, [(k, v)], stringify, numberText)[k], parse) == v
  {
    assert [(k, v)][..0] == [];
  }

  /**
   * `updateConfig`: upserts the body's entries in order and answers 200 with the stored
   * settings decoded, without defaults. The entries are not in a transaction: at the first
   * boolean value the driver throws, the entries before it stay written and the answer is 500.
   */
  method UpdateConfig(db: Database, updates: seq<(string, Json)>, stringify: Json -> string,
                      numberText: real -> string, parse: string -> Option<Json>)
    returns (status: int, response: map<string, Json>)
    modifies db`config
    ensures var n := FirstUnbindable(updates);
      db.config == Upserted(old(db.config), updates[..n], stringify, numberText)
    ensures status == OK <==> FirstUnbindable(updates) == |updates|
    ensures status != OK ==> status == SERVER_ERROR && response == map[]
    ensures status == OK ==> response == Decoded(db.config, parse)
  {
    var n := FirstUnbindable(updates);
    for i := 0 to n
      invariant db.config == Upserted(old(db.config), updates[..i], stringify, numberText)
    {
      assert updates[..i + 1][..i] == updates[..i];
      var value := Stored(updates[i].1, stringify, numberText);
      db.config := db.config[updates[i].0 := value.value];
    }
    if n < |updates| {
      return SERVER_ERROR, map[];
    }
    assert updates[..n] == updates;
    response := DecodeConfig(db.config, parse);
    status := OK;
  }
}
