# Market query binder and handlers, modelled in Dafny

This project models the HTTP handlers of the "market" (feira) resource of a Go
REST service, and above all the query-string binder `queryToMarketViewModel`
that turns the query of a `GET` request into a `MarketViewModel` filter.

The binder visits every query key. The key `nome_feira` is an alias for the
field `NomeFeira`. Every other key is looked up as the field named
`strings.Title(key)`. An unknown field fails with `paramter: <key> not allowed`.
For an `int` field the first value is parsed with `strconv.ParseInt(v, 10, 64)`;
a value it rejects fails with `paramter: <key> is not a valid integer`. Any
other field receives the first value verbatim. Any failure returns the all-zero
view model with the error.

Modules, one file each:

- `Wrappers` (`wrappers.dfy`): `Option`.
- `GoStrings` (`go_strings.dfy`): `strings.Title` restricted to ASCII.
- `GoStrconv` (`go_strconv.dfy`): `strconv.ParseInt(s, 10, 64)`, with `strconv.FormatInt` as the inverse it is proved against.
- `MarketQuery` (`market_query.dfy`): the field table, the view model, the binder as a method with a loop (`QueryToMarketViewModel`), the function it is proved against (`Bind`), and the binder's properties.
- `MarketHandlers` (`market_handlers.dfy`): `Create`, `GetByQuery`, `Update` and `Delete` as functions of their collaborators' outcomes.

Modelling choices:

- The fields of `MarketViewModel` are a parameter: a table from Go field name to kind (`Str` or `Int`). A view model maps each field name to its value, and `Zero` gives every field its Go zero value.
- Go visits a map in an unspecified order. The query is therefore a sequence of `(key, values)` entries in visit order, and every property is stated for all orders.
- Keys other than `nome_feira` are resolved through `strings.Title`, so two different keys can reach the same field. When they do, the result depends on visit order. `ResolveReaches` states exactly which keys reach a field, and `SharedFieldDependsOnOrder` exhibits the order dependence.
- The error text keeps the source's spelling `paramter`.

## Model

| member | source | states |
|---|---|---|
| `MarketQuery.QueryToMarketViewModel` | pkg/interfaces/http/handlers/markets_handlers.go:70-97 | The loop over the visited entries returns exactly `Bind`; an error comes with the all-zero view model; an empty query gives the all-zero view model and no error |
| `MarketQuery.Bind` | pkg/interfaces/http/handlers/markets_handlers.go:70-97 | Reference binder over the visited prefix; its result has exactly the table's fields, and every error result carries the all-zero view model, never a partial one |
| `MarketQuery.Zero` | pkg/interfaces/http/handlers/markets_handlers.go:71-71 | The empty view model has exactly the table's fields |
| `MarketQuery.Resolve` | pkg/interfaces/http/handlers/markets_handlers.go:74-79 | `nome_feira` is looked up as `NomeFeira`; any other key as a name of its own length whose first character is title-cased |
| `MarketQuery.EntryError` | pkg/interfaces/http/handlers/markets_handlers.go:81-89 | An entry is accepted iff its resolved name is a field and, for an `int` field, `ParseInt` accepts the first value; an unknown name gives `NotAllowed(k)`; every error names the key `k` |
| `MarketQuery.Message` | pkg/interfaces/http/handlers/markets_handlers.go:82-88 | Each error text starts with `paramter: ` followed by the offending key |
| `MarketQuery.BindErrorPersists` | pkg/interfaces/http/handlers/markets_handlers.go:81-89 | Once a prefix of the visits fails, the whole binding returns that same failure: later keys are never looked at |
| `MarketQuery.BindErrorIsFirstEntryError` | pkg/interfaces/http/handlers/markets_handlers.go:73-94 | Binding succeeds iff every entry is acceptable on its own; a failure reports the error of the first unacceptable entry in visit order |
| `MarketQuery.UntargetedFieldStaysZero` | pkg/interfaces/http/handlers/markets_handlers.go:71-96 | A field that no key resolves to keeps its zero value |
| `MarketQuery.LastKeyWins` | pkg/interfaces/http/handlers/markets_handlers.go:73-94 | In a success, a field holds the coerced first value of the last visited key that resolves to it |
| `MarketQuery.OrderIrrelevantForDistinctFields` | pkg/interfaces/http/handlers/markets_handlers.go:73-94 | When all keys resolve to distinct fields, any two visit orders both succeed with the same view model or both fail |
| `MarketQuery.SecondOfTwoWins` | pkg/interfaces/http/handlers/markets_handlers.go:73-94 | When two accepted keys reach the same field, the field holds the second key's value |
| `MarketQuery.SharedFieldDependsOnOrder` | pkg/interfaces/http/handlers/markets_handlers.go:73-79 | For any table where `NomeFeira` is a string field, `nome_feira=a` and `NomeFeira=b` both reach it, and the two visit orders bind it to `b` and to `a` |
| `MarketQuery.OnlyFirstValueRead` | pkg/interfaces/http/handlers/markets_handlers.go:86-92 | Queries that agree on keys and first values bind identically: values after `v[0]` are ignored |
| `MarketQuery.ResolveReaches` | pkg/interfaces/http/handlers/markets_handlers.go:74-79 | For an exported field name `F`: `nome_feira` reaches only `NomeFeira`; any other key reaches `F` iff it equals `F` after its first character and that character is `F[0]` or its lower case; no other fallback |
| `MarketQuery.KeysForNomeFeira` | pkg/interfaces/http/handlers/markets_handlers.go:74-79 | Exactly `nome_feira`, `nomeFeira` and `NomeFeira` resolve to `NomeFeira` |
| `MarketQuery.AliasIsNeeded` | pkg/interfaces/http/handlers/markets_handlers.go:75-78 | `strings.Title("nome_feira")` is `Nome_feira`, so the key reaches `NomeFeira` only through the alias |
| `MarketQuery.UnknownKeyRejected` | pkg/interfaces/http/handlers/markets_handlers.go:81-83 | A key whose resolved name is not a field makes the whole binding fail with the zero view model; that entry's own error is `NotAllowed(k)`, whose message is `paramter: k not allowed` (an earlier failing entry is reported first) |
| `MarketQuery.IntFieldBinding` | pkg/interfaces/http/handlers/markets_handlers.go:85-90 | An `int` field accepts its first value iff `ParseInt` does (sign at most, decimal digits, 64-bit range); then it stores that number; otherwise the binding fails and that entry's own error is `NotAValidInteger(k)` (an earlier failing entry is reported first) |
| `MarketQuery.StrFieldVerbatim` | pkg/interfaces/http/handlers/markets_handlers.go:91-93 | A non-`int` field always accepts and stores the first value verbatim |
| `MarketQuery.AliasKeyExample` | pkg/interfaces/http/handlers/markets_handlers.go:75-76 | `nome_feira=Feira Livre&nome_feira=ignored` binds only `NomeFeira` to `Feira Livre` |
| `MarketQuery.UnknownKeyExample` | pkg/interfaces/http/handlers/markets_handlers.go:81-83 | `distrito=Centro` is refused as not allowed, with the zero view model |
| `MarketQuery.IntKeyExample` | pkg/interfaces/http/handlers/markets_handlers.go:85-90 | For an `int` field `Id`, `id=42` stores 42 and `id=abc` fails as not a valid integer |
| `GoStrings.Title` | pkg/interfaces/http/handlers/markets_handlers.go:78-78 | `strings.Title(k)` keeps the key's length and title-cases its first character |
| `GoStrings.TitleFrom` | pkg/interfaces/http/handlers/markets_handlers.go:78-78 | The title-cased key has the key's length |
| `GoStrings.TitleAt` | pkg/interfaces/http/handlers/markets_handlers.go:78-78 | Position `i` of `Title(s)` is title-cased iff it is first or follows a separator; otherwise it is unchanged |
| `GoStrings.TitleOnlyUppercases` | pkg/interfaces/http/handlers/markets_handlers.go:78-78 | `Title` only upper-cases lower-case letters and never changes whether a character is a separator |
| `GoStrings.TitlePreimage` | pkg/interfaces/http/handlers/markets_handlers.go:78-78 | For a separator-free name `t`: `Title(k) == t` iff `k` has `t`'s length, matches `t` after the first character, and its first character title-cases to `t[0]` |
| `GoStrconv.ParseInt64` | pkg/interfaces/http/handlers/markets_handlers.go:86-86 | Accepts exactly the decimal literals (optional sign, at least one digit) whose signed value lies in the 64-bit range, and returns that value |
| `GoStrconv.PlusSignIgnored` | pkg/interfaces/http/handlers/markets_handlers.go:86-86 | A leading `+` is accepted and parses as the unsigned digits do |
| `GoStrconv.LeadingZerosIgnored` | pkg/interfaces/http/handlers/markets_handlers.go:86-86 | A leading zero, with or without a sign, does not change the parse |
| `GoStrconv.MinusZeroIsZero` | pkg/interfaces/http/handlers/markets_handlers.go:86-86 | `-0` parses as 0 |
| `GoStrconv.ParseFormatRoundTrip` | pkg/interfaces/http/handlers/markets_handlers.go:86-86 | Every 64-bit integer parses back from its decimal text |
| `GoStrconv.ParseExamples` | pkg/interfaces/http/handlers/markets_handlers.go:86-89 | `42`, `-7` and `+007` parse; `abc`, the empty string, a bare `-`, `1_000` and ` 1` are rejected |
| `GoStrconv.ParseBounds` | pkg/interfaces/http/handlers/markets_handlers.go:86-89 | The int64 bounds parse; one past either bound is a range error |
| `MarketHandlers.Create` | pkg/interfaces/http/handlers/markets_handlers.go:34-54 | The use case is called, with the body, iff the body decodes and validates; otherwise it is a bad request with the decoder's or the first validation message; a use-case error is mapped; an existing market gives `Ok`, a new one `Created` |
| `MarketHandlers.GetByQuery` | pkg/interfaces/http/handlers/markets_handlers.go:56-68 | The use case is called, with the bound filter, iff every query entry is acceptable; a refused query is a bad request carrying the binder's message |
| `MarketHandlers.Update` | pkg/interfaces/http/handlers/markets_handlers.go:99-119 | The use case is called, with the register code and the body, iff the body decodes, leaves `Registro` empty and `registerCode` is present; each refusal has its own bad-request message, and a non-empty `Registro` is refused before `registerCode` is looked at |
| `MarketHandlers.UpdateRefusesRegistroFirst` | pkg/interfaces/http/handlers/markets_handlers.go:104-111 | With a non-empty `Registro`, the outcome is the same whatever the path parameters and the use case, and the use case is not called |
| `MarketHandlers.Delete` | pkg/interfaces/http/handlers/markets_handlers.go:121-132 | The use case is called, with the code, iff `registerCode` is present; otherwise it is a bad request; a use-case error is mapped |

## Left out

- JSON decoding, the struct validator, the logger and the response factory's formatting are collaborators. They appear only as outcomes: a body that decoded or not, the validator's message list, and response kinds.
- `MarketHandlers.Create`: the source indexes `validationErrs[0]` whenever the list is non-nil, so a non-nil empty list would panic. The model treats an empty list as "no errors".
- The use cases, `pkg/domain/usecases/i_get_market_by_query_usecase.go` included, hold no logic. Their result is a flag that says whether they failed, plus `alreadyCreated` for creation. The values they return and the mapping of their errors to HTTP statuses are not modelled.
- `ToValueObject`, `NewMarketViewModel` and `NewSliceOfMarketViewModel` are conversions outside this model. The use-case argument is the view model itself.
- Go reflection is replaced by the field table. Not modelled: fields of a kind other than `int` or `string` (where `SetString` would panic), unexported fields, and fields promoted from embedded structs.
- `GoStrings.Title` is ASCII only. Non-ASCII characters are never separators and are never changed. Go instead treats Unicode letters and digits as non-separators, Unicode spaces as separators, and title-cases non-ASCII letters.
- Go's randomised map order is not modelled as randomness. The visit order is an input sequence, and the properties hold for every order.
- A key with an empty value list makes Go panic at `v[0]`. The model requires every value list to be non-empty (`ValuesPresent`).
- Go's `int` is taken to be 64 bits wide: the `int64` from `ParseInt` is stored unchanged by `SetInt`. On a 32-bit target `SetInt` would truncate it; that is not modelled.
- `NewMarketHandlers`, the HTTP transport and `context` handling are plumbing with no logic.
