/**
  The market query binder `queryToMarketViewModel`: it turns the query string of
  a GET request (each key with its list of values) into a `MarketViewModel`
  filter, field by field.

  The view model's full field list is not fixed here: it is the parameter
  `fields`, a table from Go field name to field kind. A view model is a map
  from field name to value that starts with every field at Go's zero value.
  Go visits the query map in an unspecified order; the model takes the query
  as the sequence of (key, values) entries in the order they are visited.
*/
module MarketQuery {
  import opened Wrappers
  import opened GoStrings
  import opened GoStrconv

  /** The two field types the binder distinguishes: Go `int`, and everything set as a string. */
  datatype Kind = Str | Int

  datatype Value = StrVal(s: string) | IntVal(n: int)

  /** Go field name to kind: the fields of `MarketViewModel`. */
  type FieldTable = map<string, Kind>

  /** A view model: Go field name to the value that field holds. */
  type ViewModel = map<string, Value>

  /** One visited entry of the query map: a key and its values. */
  type Entry = (string, seq<string>)

  type Query = seq<Entry>

  datatype BindError =
    | NotAllowed(key: string)         // no field answers to the key
    | NotAValidInteger(key: string)   // an `int` field got a value ParseInt rejects

  /** What the binder returns in Go: the view model and the error. */
  datatype Bound = Bound(model: ViewModel, err: Option<BindError>)

  /** The text of the Go error, spelling included. */
  function Message(e: BindError): (m: string)
    ensures |m| > 10 + |e.key| && m[..10] == "paramter: " && m[10..10 + |e.key|] == e.key
  {
    match e
    case NotAllowed(k) => "paramter: " + k + " not allowed"
    case NotAValidInteger(k) => "paramter: " + k + " is not a valid integer"
  }

  /** Every key carries at least one value (Go would panic on `v[0]` otherwise). */
  predicate ValuesPresent(query: Query) {
    forall i :: 0 <= i < |query| ==> query[i].1 != []
  }

  function ZeroOf(kind: Kind): Value {
    match kind
    case Str => StrVal("")
    case Int => IntVal(0)
  }

  /** `viewmodels.MarketViewModel{}`: every field at its zero value. */
  function Zero(fields: FieldTable): (z: ViewModel)
    ensures z.Keys == fields.Keys
  {
    map f | f in fields :: ZeroOf(fields[f])
  }

  /** The field name a key is looked up under: one alias, otherwise `strings.Title(key)`. */
  function Resolve(key: string): (name: string)
    ensures key == "nome_feira" ==> name == "NomeFeira"
    ensures key != "nome_feira" ==> |name| == |key| && (key != [] ==> name[0] == ToTitle(key[0]))
  {
    if key == "nome_feira" then "NomeFeira" else Title(key)
  }

  /** The error a single entry raises, if any, independently of the rest of the query. */
  function EntryError(fields: FieldTable, e: Entry): (r: Option<BindError>)
    requires e.1 != []
    ensures r == None <==> Resolve(e.0) in fields && (fields[Resolve(e.0)] == Int ==> ParseInt64(e.1[0]).Some?)
    ensures r.Some? ==> r.value.key == e.0
    ensures r == Some(NotAllowed(e.0)) <==> Resolve(e.0) !in fields
  {
    var name := Resolve(e.0);
    if name !in fields then Some(NotAllowed(e.0))
    else if fields[name] == Int && ParseInt64(e.1[0]).None? then Some(NotAValidInteger(e.0))
    else None
  }

  /** The value an accepted entry stores: the parsed first value for `int`, the first value verbatim otherwise. */
  function Coerce(kind: Kind, raw: string): Value
    requires kind == Int ==> ParseInt64(raw).Some?
  {
    match kind
    case Int => IntVal(ParseInt64(raw).value)
    case Str => StrVal(raw)
  }

  /** The value entry `e` stores, if it is accepted. */
  function Stored(fields: FieldTable, e: Entry): Value
    requires e.1 != [] && EntryError(fields, e) == None
  {
    Coerce(fields[Resolve(e.0)], e.1[0])
  }

  /** One turn of the loop body on a view model that has no error yet. */
  function Visit(fields: FieldTable, model: ViewModel, e: Entry): Bound
    requires e.1 != []
  {
    match EntryError(fields, e)
    case Some(x) => Bound(Zero(fields), Some(x))
    case None => Bound(model[Resolve(e.0) := Stored(fields, e)], None)
  }

  /**
    The binder as a function of the visited prefix: the reference the loop is
    proved against. Its result always has exactly the table's fields, and an
    error result always carries the all-zero view model.
  */
  function Bind(fields: FieldTable, query: Query): (b: Bound)
    requires ValuesPresent(query)
    ensures b.model.Keys == fields.Keys
    ensures b.err.Some? ==> b.model == Zero(fields)
    decreases |query|
  {
    if query == [] then Bound(Zero(fields), None)
    else
      var prev := Bind(fields, query[..|query| - 1]);
      if prev.err.Some? then prev else Visit(fields, prev.model, query[|query| - 1])
  }

  /**
    `queryToMarketViewModel`: visits the entries in order, resolves each key to a
    field, coerces the first value to the field's kind and stores it, and returns
    the zero view model with an error at the first key that fails.
  */
  method QueryToMarketViewModel(fields: FieldTable, query: Query) returns (vModel: ViewModel, err: Option<BindError>)
    requires ValuesPresent(query)
    ensures Bound(vModel, err) == Bind(fields, query)
    ensures err.Some? ==> vModel == Zero(fields)
    ensures query == [] ==> vModel == Zero(fields) && err == None
  {
    vModel := Zero(fields);
    err := None;
    var i := 0;
    while i < |query|
      invariant 0 <= i <= |query|
      invariant Bind(fields, query[..i]) == Bound(vModel, None)
    {
      var (k, v) := query[i];
      assert query[..i + 1][..i] == query[..i];
      var ff := if k == "nome_feira" then "NomeFeira" else Title(k);
      if ff !in fields {
        BindErrorPersists(fields, query, i + 1);
        return Zero(fields), Some(NotAllowed(k));
      }
      if fields[ff] == Int {
        var t := ParseInt64(v[0]);
        if t.None? {
          BindErrorPersists(fields, query, i + 1);
          return Zero(fields), Some(NotAValidInteger(k));
        }
        vModel := vModel[ff := IntVal(t.value)];
      } else {
        vModel := vModel[ff := StrVal(v[0])];
      }
      i := i + 1;
    }
    assert query[..i] == query;
  }

  /** The first error ends the binding: no later entry is looked at. */
  lemma {:induction false} BindErrorPersists(fields: FieldTable, query: Query, n: nat)
    requires ValuesPresent(query) && n <= |query|
    requires Bind(fields, query[..n]).err.Some?
    ensures Bind(fields, query) == Bind(fields, query[..n])
    decreases |query| - n
  {
    if n < |query| {
      assert query[..n + 1][..n] == query[..n];
      BindErrorPersists(fields, query, n + 1);
    } else {
      assert query[..n] == query;
    }
  }

  /**
    Success and failure: binding succeeds exactly when every entry is acceptable
    on its own, and a failure reports the error of the first unacceptable entry.
  */
  lemma {:induction false} BindErrorIsFirstEntryError(fields: FieldTable, query: Query)
    requires ValuesPresent(query)
    ensures Bind(fields, query).err == None <==> forall i :: 0 <= i < |query| ==> EntryError(fields, query[i]) == None
    ensures Bind(fields, query).err.Some? ==>
      exists i :: 0 <= i < |query| && EntryError(fields, query[i]) == Bind(fields, query).err &&
        forall j :: 0 <= j < i ==> EntryError(fields, query[j]) == None
    decreases |query|
  {
    if query != [] {
      var init := query[..|query| - 1];
      BindErrorIsFirstEntryError(fields, init);
      assert forall i :: 0 <= i < |init| ==> init[i] == query[i];
    }
  }

  /** A field that no key resolves to keeps its zero value in a successful result. */
  lemma {:induction false} UntargetedFieldStaysZero(fields: FieldTable, query: Query, f: string)
    requires ValuesPresent(query) && f in fields
    requires forall i :: 0 <= i < |query| ==> Resolve(query[i].0) != f
    ensures Bind(fields, query).model[f] == ZeroOf(fields[f])
    decreases |query|
  {
    if query != [] {
      var init := query[..|query| - 1];
      UntargetedFieldStaysZero(fields, init, f);
    }
  }

  /**
    In a successful result, the field an entry resolves to holds that entry's
    coerced first value, provided no later entry resolves to the same field:
    among keys that share a field, the one visited last wins.
  */
  lemma {:induction false} LastKeyWins(fields: FieldTable, query: Query, i: nat)
    requires ValuesPresent(query) && i < |query|
    requires Bind(fields, query).err == None
    requires forall j :: i < j < |query| ==> Resolve(query[j].0) != Resolve(query[i].0)
    ensures EntryError(fields, query[i]) == None
    ensures Bind(fields, query).model[Resolve(query[i].0)] == Stored(fields, query[i])
    decreases |query|
  {
    var init := query[..|query| - 1];
    assert Bind(fields, init).err == None;
    if i < |query| - 1 {
      assert init[i] == query[i];
      LastKeyWins(fields, init, i);
    }
  }

  /**
    When every key resolves to a different field, the visit order is not
    observable in a success: two visit orders of the same entries either both
    succeed with the same view model, or both fail.
  */
  lemma OrderIrrelevantForDistinctFields(fields: FieldTable, q1: Query, q2: Query)
    requires ValuesPresent(q1) && ValuesPresent(q2)
    requires forall e :: e in q1 <==> e in q2
    requires forall i, j :: 0 <= i < j < |q1| ==> Resolve(q1[i].0) != Resolve(q1[j].0)
    requires forall i, j :: 0 <= i < j < |q2| ==> Resolve(q2[i].0) != Resolve(q2[j].0)
    ensures Bind(fields, q1).err.None? <==> Bind(fields, q2).err.None?
    ensures Bind(fields, q1).err.None? ==> Bind(fields, q1).model == Bind(fields, q2).model
  {
    BindErrorIsFirstEntryError(fields, q1);
    BindErrorIsFirstEntryError(fields, q2);
    if Bind(fields, q1).err.None? {
      assert forall j :: 0 <= j < |q2| ==> EntryError(fields, q2[j]) == None by {
        forall j | 0 <= j < |q2| ensures EntryError(fields, q2[j]) == None {
          assert q2[j] in q1;
        }
      }
      var m1, m2 := Bind(fields, q1).model, Bind(fields, q2).model;
      forall f | f in fields
        ensures m1[f] == m2[f]
      {
        FieldAgrees(fields, q1, q2, f);
      }
    } else if Bind(fields, q2).err.None? {
      forall i | 0 <= i < |q1| ensures EntryError(fields, q1[i]) == None {
        assert q1[i] in q2;
      }
    }
  }

  lemma FieldAgrees(fields: FieldTable, q1: Query, q2: Query, f: string)
    requires ValuesPresent(q1) && ValuesPresent(q2) && f in fields
    requires forall e :: e in q1 <==> e in q2
    requires forall i, j :: 0 <= i < j < |q1| ==> Resolve(q1[i].0) != Resolve(q1[j].0)
    requires forall i, j :: 0 <= i < j < |q2| ==> Resolve(q2[i].0) != Resolve(q2[j].0)
    requires Bind(fields, q1).err.None? && Bind(fields, q2).err.None?
    ensures Bind(fields, q1).model[f] == Bind(fields, q2).model[f]
  {
    if i :| 0 <= i < |q1| && Resolve(q1[i].0) == f {
      assert q1[i] in q2;
      var j :| 0 <= j < |q2| && q2[j] == q1[i];
      LastKeyWins(fields, q1, i);
      LastKeyWins(fields, q2, j);
    } else {
      UntargetedFieldStaysZero(fields, q1, f);
      forall j | 0 <= j < |q2| ensures Resolve(q2[j].0) != f {
        assert q2[j] in q1;
      }
      UntargetedFieldStaysZero(fields, q2, f);
    }
  }

  /** Only the first value of each key is read: values after it never change the result. */
  lemma {:induction false} OnlyFirstValueRead(fields: FieldTable, q1: Query, q2: Query)
    requires ValuesPresent(q1) && ValuesPresent(q2) && |q1| == |q2|
    requires forall i :: 0 <= i < |q1| ==> q1[i].0 == q2[i].0 && q1[i].1[0] == q2[i].1[0]
    ensures Bind(fields, q1) == Bind(fields, q2)
    decreases |q1|
  {
    if q1 != [] {
      var n := |q1| - 1;
      OnlyFirstValueRead(fields, q1[..n], q2[..n]);
      assert EntryError(fields, q1[n]) == EntryError(fields, q2[n]);
    }
  }

  /**
    Name resolution for a field named like a Go exported identifier (a word
    starting with a capital): the key "nome_feira" reaches only `NomeFeira`, and
    any other key reaches the field exactly when it spells the field's name
    after its first character and its first character is that capital or its
    lower-case form. There is no other fallback.
  */
  lemma ResolveReaches(key: string, f: string)
    requires IsWord(f) && 'A' <= f[0] <= 'Z'
    ensures Resolve(key) == f <==>
      if key == "nome_feira" then f == "NomeFeira"
      else |key| == |f| && (key[0] == f[0] || key[0] as int == f[0] as int + 32) && key[1..] == f[1..]
  {
    if key != "nome_feira" {
      TitlePreimage(key, f);
    }
  }

  /** "nome_feira" needs its alias: `strings.Title` alone makes it "Nome_feira". */
  lemma AliasIsNeeded()
    ensures Title("nome_feira") == "Nome_feira"
    ensures Resolve("nome_feira") == "NomeFeira"
  {
  }

  /** The keys that reach `NomeFeira` are exactly "nome_feira", "nomeFeira" and "NomeFeira". */
  lemma KeysForNomeFeira(key: string)
    ensures Resolve(key) == "NomeFeira" <==> key == "nome_feira" || key == "nomeFeira" || key == "NomeFeira"
  {
    var f := "NomeFeira";
    assert IsWord(f);
    ResolveReaches(key, f);
    if key == "nomeFeira" || key == "NomeFeira" {
      assert key[1..] == f[1..];
    }
    if key != "nome_feira" && |key| == |f| && key[1..] == f[1..] && (key[0] == 'N' || key[0] == 'n') {
      assert key == [key[0]] + key[1..];
    }
  }

  /** Two accepted entries for one field: the second one's value is what the field holds. */
  lemma SecondOfTwoWins(fields: FieldTable, a: Entry, b: Entry)
    requires a.1 != [] && b.1 != []
    requires EntryError(fields, a) == None && EntryError(fields, b) == None
    requires Resolve(a.0) == Resolve(b.0)
    ensures Bind(fields, [a, b]).model[Resolve(b.0)] == Stored(fields, b)
  {
    var q: Query := [a, b];
    assert q[..1] == [a] && [a][..0] == [];
    assert Bind(fields, [a]) == Visit(fields, Zero(fields), a);
  }

  lemma NomeFeiraKeysAccepted(fields: FieldTable, a: Entry, b: Entry)
    requires "NomeFeira" in fields && fields["NomeFeira"] == Str
    requires a == ("nome_feira", ["a"]) && b == ("NomeFeira", ["b"])
    ensures Resolve(a.0) == "NomeFeira" && Resolve(b.0) == "NomeFeira"
    ensures EntryError(fields, a) == None && EntryError(fields, b) == None
    ensures Stored(fields, a) == StrVal("a") && Stored(fields, b) == StrVal("b")
  {
    KeysForNomeFeira("NomeFeira");
  }

  /**
    Two keys for the one string field `NomeFeira`, `nome_feira=a` and `NomeFeira=b`:
    whichever Go happens to visit last decides the filter, so the same query can
    bind to two different view models.
  */
  lemma SharedFieldDependsOnOrder(fields: FieldTable, a: Entry, b: Entry)
    requires "NomeFeira" in fields && fields["NomeFeira"] == Str
    requires a == ("nome_feira", ["a"]) && b == ("NomeFeira", ["b"])
    ensures Bind(fields, [a, b]).model["NomeFeira"] == StrVal("b")
    ensures Bind(fields, [b, a]).model["NomeFeira"] == StrVal("a")
  {
    NomeFeiraKeysAccepted(fields, a, b);
    SecondOfTwoWins(fields, a, b);
    SecondOfTwoWins(fields, b, a);
  }

  /** A key naming no field fails the whole binding with the "not allowed" message. */
  lemma UnknownKeyRejected(fields: FieldTable, query: Query, i: nat)
    requires ValuesPresent(query) && i < |query|
    requires Resolve(query[i].0) !in fields
    ensures Bind(fields, query).err.Some? && Bind(fields, query).model == Zero(fields)
    ensures EntryError(fields, query[i]) == Some(NotAllowed(query[i].0))
    ensures Message(EntryError(fields, query[i]).value) == "paramter: " + query[i].0 + " not allowed"
  {
  }

  /**
    An `int` field accepts its first value exactly when `ParseInt` does (a sign
    at most, decimal digits, within 64 bits), and then holds the parsed number.
  */
  lemma IntFieldBinding(fields: FieldTable, query: Query, i: nat)
    requires ValuesPresent(query) && i < |query|
    requires Resolve(query[i].0) in fields && fields[Resolve(query[i].0)] == Int
    ensures EntryError(fields, query[i]) == None <==> ParseInt64(query[i].1[0]).Some?
    ensures ParseInt64(query[i].1[0]).None? ==>
      Bind(fields, query).err.Some? && EntryError(fields, query[i]) == Some(NotAValidInteger(query[i].0))
    ensures ParseInt64(query[i].1[0]).Some? ==>
      IsDecimalLiteral(query[i].1[0]) && Stored(fields, query[i]) == IntVal(ParseInt64(query[i].1[0]).value)
  {
  }

  /** A non-`int` field stores the first value exactly as given: no trimming, no conversion. */
  lemma StrFieldVerbatim(fields: FieldTable, e: Entry)
    requires e.1 != [] && Resolve(e.0) in fields && fields[Resolve(e.0)] == Str
    ensures EntryError(fields, e) == None
    ensures Stored(fields, e) == StrVal(e.1[0])
  {
  }

  /** With fields `NomeFeira`, `Registro`, `Bairro`: `nome_feira=Feira Livre&nome_feira=ignored` binds `NomeFeira` to its first value. */
  lemma AliasKeyExample(fields: FieldTable)
    requires fields == map["NomeFeira" := Str, "Registro" := Str, "Bairro" := Str]
    ensures Bind(fields, [("nome_feira", ["Feira Livre", "ignored"])]) ==
      Bound(Zero(fields)["NomeFeira" := StrVal("Feira Livre")], None)
  {
  }

  /** With fields `NomeFeira`, `Registro`, `Bairro`: `distrito=Centro` names no field and is refused. */
  lemma UnknownKeyExample(fields: FieldTable)
    requires fields == map["NomeFeira" := Str, "Registro" := Str, "Bairro" := Str]
    ensures Bind(fields, [("distrito", ["Centro"])]) == Bound(Zero(fields), Some(NotAllowed("distrito")))
  {
  }

  /** With an `int` field `Id`: `id=42` stores 42 and `id=abc` is refused. */
  lemma IntKeyExample(fields: FieldTable)
    requires fields == map["NomeFeira" := Str, "Id" := Int]
    ensures Bind(fields, [("id", ["42"])]) == Bound(Zero(fields)["Id" := IntVal(42)], None)
    ensures Bind(fields, [("id", ["abc"])]) == Bound(Zero(fields), Some(NotAValidInteger("id")))
  {
    var k := "id";
    assert Title(k) == "Id" by { TitleAt(k, 0); TitleAt(k, 1); }
    ParseExamples();
  }
}
