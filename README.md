# http-client in Dafny

This project models the core of `@shahadul-17/http-client`, a browser HTTP client written
in TypeScript, and proves properties of that model. It covers three parts.

**The request engine.** `HttpWebRequest` wraps one `XMLHttpRequest`. The constructor
defaults the JSON parsing switches and lower-cases the request header names. When the body
is a plain array or object, the constructor also turns it into JSON text and forces a JSON
`content-type`. `sendAsync` opens the transport and applies the headers. It answers the
transport's progress, abort, timeout, error and `readystatechange` events. It parses the
response body and response headers and fires the library's own events. Only the first
resolution of its promise takes effect, and the promise may never settle: a `JSON.parse`
that throws stops the listener, and a completed request with status 0 waits for an abort,
timeout or error event.

**The parameter binder.** `HttpUtilities` fills a request from a data bag, which is a plain
record or a `FormData`:
- it sanitises the path;
- it substitutes `{name}` and `{name?}` path parameters;
- it appends query parameters, percent-encoded;
- it prepares header, body and form-data objects.

A mandatory parameter without a value makes it throw a 400 `HttpError`. The error names the
parameter and where it was declared.

**The utilities they rest on.** These are `DataUtilities` (get and set over a record or a
`FormData`, clone), `ObjectUtilities.modifyKeyCase`, `MathUtilities.calculatePercentage`
and `HttpError`.

Host facilities the core calls are modelled from their standards:
- `encodeURIComponent` (section 19.2.6.5 of ECMA-262, with RFC 3986 percent-encoding and
  UTF-8), with a decoder proved to invert it;
- `String.prototype` `indexOf`, `lastIndexOf`, `replace` with a string pattern, `trim`,
  `toLowerCase`, `toUpperCase` and `split(/[\r\n]+/)`;
- the FormData entry list of the WHATWG XMLHttpRequest Standard (section 5).

How the model is arranged:
- **Objects.** A JavaScript object is an ordered dictionary (`JsValues.Dict`): its keys
  enumerate in insertion order. Where the object's identity matters, it is a `JsRecord`
  class that is updated in place: request headers, an error's data, a record bag.
- **The binder** only reads its data bag. Each binder method is proved equal to a recursive
  specification function, and the binder's promises are lemmas about those functions. Each
  binder has an "Outcome" lemma. It says the call fails exactly at the first mandatory
  declaration without a value, with that declaration's error. On success it says exactly
  what the call returns.
- **The engine** is a class whose fields are the source's private fields. The transport is
  not an object. What the engine reads from it arrives as method arguments. What the engine
  asks of it is appended to `transportLog`. Fired events go to a ghost `events` log. The
  promise is the `settled` field.

`extractArrayTypeParameterName` returns the declaration's suffix from its last `[`. So the
array field `tags[]` gets the name `[]`, and its values are looked up under keys that start
with `[]`. The model follows the code as written. `HttpUtilities.ExtractParameterInfoExamples`
states this case.

## Model

| member | source | states |
|---|---|---|
| Http.StateName | src/http-web-request.ts:362-368 | the state map is defined exactly for readyState 0..4, and the state it gives has that number |
| Http.StateNameIndex | src/http-web-request.ts:362-368 | the state map inverts the readyState numbering of every state |
| Http.ShallConvertToJsonCases | src/http-web-request.ts:413-419 | a body is converted to JSON exactly when it is a plain array or object; falsy values, strings, numbers, booleans and host objects are sent as they are |
| Http.RequestOptions.FromUrl | src/http-web-request.ts:50-52 | a bare URL becomes an options object holding only that URL |
| HttpErrors.HttpError.constructor | src/http/http-error.ts:8-20 | status, message and data are stored; the stack is the given trace when that trace is truthy, otherwise the captured one |
| HttpErrors.HttpError.ToResponse | src/http/http-error.ts:22-36 | the response carries the status, the message and the data; with a stack trace asked for and present, `stackTrace` is written into the error's own data object (or into a fresh one), otherwise the data is untouched |
| HttpErrors.FromError | src/http/http-error.ts:38-44 | an HttpError is returned as the same object; any other error becomes a fresh HttpError with the given status (500 by default), its message and its stack |
| HttpErrors.BindingError.Data | src/utilities/public/http-utilities/http-utilities.ts:118-119 | the error data object holds exactly `parameter` and `location`, in that order |
| HttpErrors.Throw | src/utilities/public/http-utilities/http-utilities.ts:154-155 | a binding error becomes a fresh 400 HttpError whose data is a fresh `{ parameter, location }` object |
| MathUtilities.CalculatePercentageSpec | src/utilities/internal/math-utilities.ts:3-7 | 0 for a zero total; otherwise the result times the total is 100 times the value; a whole gives 100 and a part of a positive total lies in 0..100 |
| ObjectUtilities.CaseOfProperties | src/utilities/internal/object-utilities.ts:18 | a case-mapped key is in the requested case, and mapping it again changes nothing |
| ObjectUtilities.FoldStepPresent | src/utilities/internal/object-utilities.ts:19-23 | one turn of the loop removes the key and stores its value under the case-mapped key, keeping the object well formed |
| ObjectUtilities.FoldKeysKeySet | src/utilities/internal/object-utilities.ts:17-24 | after the loop over a list of keys, the keys are the untouched ones plus the case-mapped images of the list |
| ObjectUtilities.FoldKeysKept | src/utilities/internal/object-utilities.ts:17-24 | a key outside the list and outside its case-mapped image keeps its value |
| ObjectUtilities.NoCaseCollisionStep | src/utilities/internal/object-utilities.ts:18-23 | one turn of the loop creates no case collision where there was none |
| ObjectUtilities.FoldKeysValues | src/utilities/internal/object-utilities.ts:17-24 | without collisions, every listed key's value ends up under its case-mapped key |
| ObjectUtilities.FoldKeysValueOrigin | src/utilities/internal/object-utilities.ts:17-24 | with or without collisions, every value left came from an original key that is, or maps to, the key holding it |
| ObjectUtilities.FoldKeysWholeKeys | src/utilities/internal/object-utilities.ts:11-26 | over all the keys, the result is well formed, its keys are exactly the case-mapped original keys, and all of them are in the requested case |
| ObjectUtilities.FoldKeysWholeOrigin | src/utilities/internal/object-utilities.ts:11-26 | over all the keys, every value left is an original value of a key that maps to it |
| ObjectUtilities.FoldKeysWholeValues | src/utilities/internal/object-utilities.ts:11-26 | over all the keys and without collisions, no value is lost |
| ObjectUtilities.ModifyKeyCase | src/utilities/internal/object-utilities.ts:11-26 | the same object is returned, rewritten in place: its keys are exactly the case-mapped old keys, all in the requested case; each value came from a key mapping to its key; without collisions every value is kept |
| JsValues.Dict.Get | src/utilities/public/data-utilities.ts:56 | a property read gives the stored value, and undefined exactly when the key is absent |
| JsValues.Dict.Put | src/utilities/public/data-utilities.ts:72 | a property write updates the value; a new key is enumerated last and an existing one keeps its place; well-formedness is kept |
| JsValues.Dict.Delete | src/utilities/internal/object-utilities.ts:21 | `delete` removes exactly that key from both the key order and the values; well-formedness is kept |
| JsValues.RemoveKey | src/utilities/internal/object-utilities.ts:21 | the key order loses exactly the deleted key and stays free of duplicates |
| JsValues.EmptyDict | src/utilities/public/http-utilities/http-utilities.ts:172 | `{}` is well formed and empty |
| JsValues.Coalesce | src/utilities/public/http-utilities/http-utilities.ts:151 | `??` gives the fallback exactly for null and undefined |
| JsValues.ToJsString | src/utilities/public/http-utilities/http-utilities.ts:158 | converting a string to text gives the string itself |
| JsStrings.IndexOfFrom | src/utilities/public/http-utilities/http-utilities.ts:18 | the search from a position gives the first occurrence at or after it, or -1 when there is none |
| JsStrings.IndexOf | src/utilities/public/http-utilities/http-utilities.ts:18 | `indexOf` gives -1 exactly when the pattern does not occur, and otherwise its first occurrence |
| JsStrings.IndexOfCharFromSpec | src/http-web-request.ts:189 | the character search from a position gives -1 exactly when the character does not occur there, and otherwise its first occurrence |
| JsStrings.IndexOfCharSpec | src/http-web-request.ts:189 | `indexOf(':')` gives -1 exactly when there is no colon, and otherwise the first colon |
| JsStrings.LastIndexBeforeSpec | src/utilities/public/http-utilities/http-utilities.ts:38-42 | the backward search below a bound gives -1 exactly when the character does not occur, and otherwise its last occurrence |
| JsStrings.LastIndexOfCharSpec | src/utilities/public/http-utilities/http-utilities.ts:38-42 | `lastIndexOf` gives -1 exactly when the character is absent, and otherwise its last occurrence |
| JsStrings.ReplaceFirst | src/utilities/public/http-utilities/http-utilities.ts:19 | `replace` with a string pattern changes nothing when the pattern is absent, and otherwise swaps only its first occurrence |
| JsStrings.TrimStartSpec | src/http-web-request.ts:194 | `trimStart` drops exactly the leading white space: it gives a suffix that starts with non-white space |
| JsStrings.TrimEndSpec | src/http-web-request.ts:194 | `trimEnd` drops exactly the trailing white space: it gives a prefix that ends with non-white space |
| JsStrings.TrimSpec | src/http-web-request.ts:185 | `trim` gives a slice of the input with only white space outside it, and that slice neither starts nor ends with white space |
| JsStrings.ToLower | src/utilities/public/http-utilities/http-utilities.ts:192 | `toLowerCase` keeps the length and lower-cases each character |
| JsStrings.ToUpper | src/utilities/internal/object-utilities.ts:18 | `toUpperCase` keeps the length and upper-cases each character |
| JsStrings.ToLowerProperties | src/utilities/public/http-utilities/http-utilities.ts:192 | the result is lower case, lower-casing twice changes nothing, and a lower-case text is left alone |
| JsStrings.ToUpperProperties | src/utilities/internal/object-utilities.ts:18 | the result is upper case, upper-casing twice changes nothing, and an upper-case text is left alone |
| JsStrings.SplitLinesPieces | src/http-web-request.ts:185 | `split(/[\r\n]+/)` cuts the text at its maximal runs of CR and LF: the pieces interleaved with those runs give the text back, there is one piece more than runs, no piece holds a line break, every run is non-empty and made of line breaks, and only the first and last piece can be empty |
| UriComponent.HexValueOfDigit | src/utilities/public/http-utilities/http-utilities.ts:125 | reading back a hexadecimal digit gives its value |
| UriComponent.PercentOctet | src/utilities/public/http-utilities/http-utilities.ts:125 | an octet is written as `%` and two upper-case hexadecimal digits |
| UriComponent.EncodeChar | src/utilities/public/http-utilities/http-utilities.ts:125 | an unreserved character stays as it is; any other becomes 1 to 4 percent-encoded octets |
| UriComponent.EncodeUriComponent | src/utilities/public/http-utilities/http-utilities.ts:125 | encoding never shortens the text |
| UriComponent.EncodedCharsAll | src/utilities/public/http-utilities/http-utilities.ts:125 | the encoded text holds only unreserved characters, `%` and hexadecimal digits |
| UriComponent.EncodedChars | src/utilities/public/http-utilities/http-utilities.ts:125-127 | the encoded text holds none of `&`, `=`, `?`, `#`, `/` or space, so it cannot break the query string |
| UriComponent.Utf8TwoOctets | src/utilities/public/http-utilities/http-utilities.ts:125 | the two-octet UTF-8 form has the right lead and continuation octets and decodes to the code point |
| UriComponent.Utf8ThreeOctets | src/utilities/public/http-utilities/http-utilities.ts:125 | the same for the three-octet form |
| UriComponent.Utf8FourOctets | src/utilities/public/http-utilities/http-utilities.ts:125 | the same for the four-octet form |
| UriComponent.Utf8CodePoint | src/utilities/public/http-utilities/http-utilities.ts:125 | the UTF-8 form of every character has the length its lead octet announces and decodes back to the character |
| UriComponent.ReadPercentOctets | src/utilities/public/http-utilities/http-utilities.ts:125 | reading back percent-encoded octets gives the octets |
| UriComponent.DecodeEncodedChar | src/utilities/public/http-utilities/http-utilities.ts:125 | decoding the encoding of one character followed by any text gives the character followed by the decoding of the text |
| UriComponent.DecodeEncode | src/utilities/public/http-utilities/http-utilities.ts:125 | decoding the encoded component gives back the original text |
| FormDataModel.Names | src/utilities/public/http-utilities/http-utilities.ts:242-243 | `keys()` lists every entry's name in order, duplicates kept |
| FormDataModel.GetAllConcat | src/utilities/public/data-utilities.ts:33 | `getAll` over two entry lists is the concatenation of the two |
| FormDataModel.GetAllEmptyIffAbsent | src/utilities/public/data-utilities.ts:33-36 | `getAll` is empty exactly when no entry has the name |
| FormDataModel.Appended | src/utilities/public/data-utilities.ts:69 | `append` keeps every entry and adds one at the end |
| FormDataModel.AppendedGetAll | src/utilities/public/data-utilities.ts:69 | after `append`, the name's values gain the converted value at the end, and other names are unchanged |
| FormDataModel.RemoveNamed | src/utilities/public/data-utilities.ts:67 | removing a name leaves no entry with that name |
| FormDataModel.RemoveNamedOthers | src/utilities/public/data-utilities.ts:67 | removing a name leaves the values of other names unchanged |
| FormDataModel.ReplaceFirstNamedGetAll | src/utilities/public/data-utilities.ts:67 | replacing the first entry with a name and dropping the rest leaves that name with exactly the new value, and other names unchanged |
| FormDataModel.SetEntriesGetAll | src/utilities/public/data-utilities.ts:67 | after `set`, the name has exactly the converted value, and other names are unchanged |
| FormDataModel.ListIterator.Next | src/utilities/public/data-utilities.ts:5-10 | `next()` yields the items in order, and reports done once they are used up |
| FormDataModel.FormData.constructor | src/utilities/public/http-utilities/http-utilities.ts:241 | a new FormData has no entries |
| FormDataModel.FormData.Append | src/utilities/public/data-utilities.ts:69 | the entries become the appended list |
| FormDataModel.FormData.Set | src/utilities/public/data-utilities.ts:67 | the entries become the set list, in which the name has exactly the new value |
| FormDataModel.FormData.Keys | src/utilities/public/http-utilities/http-utilities.ts:243 | `keys()` gives a fresh iterator over the entry names, at the start |
| DataUtilities.GetIterableIteratorToArray | src/utilities/public/data-utilities.ts:3-14 | the array holds the iterator's remaining items in order; `next()` is called once per item plus once for done |
| DataUtilities.KeysWithPrefixConcat | src/utilities/public/data-utilities.ts:16-26 | the key filter distributes over concatenation |
| DataUtilities.KeysWithPrefixCounts | src/utilities/public/data-utilities.ts:16-26 | the filter keeps every key that starts with the name, as often as it occurs, and drops every other key |
| DataUtilities.FindFormDataArrayEntryKeys | src/utilities/public/data-utilities.ts:16-26 | the result is the in-order list of the keys starting with the name: every such key is in it and no other |
| DataUtilities.GetFormDataValue | src/utilities/public/data-utilities.ts:28-44 | undefined for a non-FormData bag or an absent name; the first value when single or alone; otherwise the array of all values |
| DataUtilities.GetValue | src/utilities/public/data-utilities.ts:46-57 | undefined without a bag; the FormData lookup for a FormData bag; the property (undefined when absent) for a record |
| DataUtilities.GetValueAfterSet | src/utilities/public/data-utilities.ts:59-70 | reading a FormData name after `set` gives the converted value |
| DataUtilities.GetValueAfterAppend | src/utilities/public/data-utilities.ts:59-70 | reading a FormData name after `append` gives the first value, or with `single` off all values including the new one |
| DataUtilities.SetValue | src/utilities/public/data-utilities.ts:59-76 | without a bag a fresh record holds just the value; a FormData is appended to or, with overwrite, set; a record gets the property; the same bag is returned and reading the property back gives the value |
| DataUtilities.Clone | src/utilities/public/data-utilities.ts:78-93 | absent stays absent; otherwise a fresh bag of the same kind with the same contents |
| HttpUtilities.NoDoubleSlashIncludes | src/utilities/public/http-utilities/http-utilities.ts:18 | the loop condition `indexOf("//") !== -1` holds exactly when two slashes are adjacent |
| HttpUtilities.Squeeze | src/utilities/public/http-utilities/http-utilities.ts:18-20 | squeezing leaves no double slash, never lengthens the path, and keeps its first character |
| HttpUtilities.SqueezeReplace | src/utilities/public/http-utilities/http-utilities.ts:19 | replacing one `//` by `/` does not change the squeezed path, so the loop computes the squeeze |
| HttpUtilities.SqueezeIdentity | src/utilities/public/http-utilities/http-utilities.ts:18 | a path without a double slash is its own squeeze |
| HttpUtilities.DropTrailingSlash | src/utilities/public/http-utilities/http-utilities.ts:22-24 | after squeezing, dropping one trailing slash leaves no trailing slash and no double slash |
| HttpUtilities.SanitizedProperties | src/utilities/public/http-utilities/http-utilities.ts:15-27 | "" stays ""; a sanitised path has no `//` and no trailing `/`; sanitising twice equals sanitising once |
| HttpUtilities.SanitizePath | src/utilities/public/http-utilities/http-utilities.ts:15-27 | the loop and the trailing-slash step compute the sanitised path |
| HttpUtilities.ExtractArrayTypeParameterNameSpec | src/utilities/public/http-utilities/http-utilities.ts:37-49 | only a declaration ending in `]` and holding a `[` changes; it becomes its suffix from its last `[` |
| HttpUtilities.DeclaredText | src/utilities/public/http-utilities/http-utilities.ts:59-66 | the declaration before its first `?` is a prefix without `?`, followed by `?` or the end |
| HttpUtilities.ExtractParameterInfoSpec | src/utilities/public/http-utilities/http-utilities.ts:56-75 | mandatory exactly without a `?`; an array exactly when the text before the `?` names one; the name is that text, or for an array the text's suffix from its last `[` |
| HttpUtilities.ArrayTextName | src/utilities/public/http-utilities/http-utilities.ts:68-73 | `isArray` (the name differs from the text) holds exactly for text ending in `]` with a `[` after the first character |
| HttpUtilities.ExtractParameterInfoExamples | src/utilities/public/http-utilities/http-utilities.ts:56-75 | `id`, `id?`, `tags[]` and `tags[]?` give the information the code computes, `[]` as the array name included |
| HttpUtilities.WordRunEnd | src/utilities/public/http-utilities/http-utilities.ts:5 | `\w+` stops at the first non-word character |
| HttpUtilities.MatchAt | src/utilities/public/http-utilities/http-utilities.ts:5-6 | a match at a position is the capture in braces, and the capture is a path token |
| HttpUtilities.MatchAtSpec | src/utilities/public/http-utilities/http-utilities.ts:5-6 | `{(\w+\??)}` matches at a position with capture `t` exactly when `t` is a path token and `{t}` starts there; the match ends right after the closing brace |
| HttpUtilities.MatchAtToken | src/utilities/public/http-utilities/http-utilities.ts:5-6 | a path token in braces at a position is matched there, with that token as the capture |
| HttpUtilities.Exec | src/utilities/public/http-utilities/http-utilities.ts:86 | a match `exec` returns is a path token occurring in braces, ending after `lastIndex` |
| HttpUtilities.ExecSpec | src/utilities/public/http-utilities/http-utilities.ts:86 | `exec` from `lastIndex` returns null exactly when no match starts at or after `lastIndex`; otherwise it returns the match at the first such position |
| HttpUtilities.ExecNone | src/utilities/public/http-utilities/http-utilities.ts:86 | null exactly when no match starts at or after `lastIndex` |
| HttpUtilities.ExecLeftmost | src/utilities/public/http-utilities/http-utilities.ts:86 | a match found is the one at the leftmost position at or after `lastIndex` where one starts |
| HttpUtilities.MatchBody | src/utilities/public/http-utilities/http-utilities.ts:5-6 | no `{` occurs inside a match, so matches never overlap |
| HttpUtilities.PathTokensShape | src/utilities/public/http-utilities/http-utilities.ts:82-96 | the successive `exec` matches give exactly the capture of every position where the pattern matches, left to right, each a well-formed token occurring in braces |
| HttpUtilities.ExtractPathParameters | src/utilities/public/http-utilities/http-utilities.ts:82-96 | the exec loop returns the capture of every position in the path where the pattern matches, in order, each a token occurring in braces |
| HttpUtilities.PathTokenText | src/utilities/public/http-utilities/http-utilities.ts:150 | a path token never names an array, is optional exactly when it ends in `?`, and its name is its word |
| HttpUtilities.TokenPlaceholder | src/utilities/public/http-utilities/http-utilities.ts:158 | the text each turn replaces is exactly the token in braces, as found in the path |
| HttpUtilities.SubstitutePathParametersFailure | src/utilities/public/http-utilities/http-utilities.ts:149-159 | the replacement loop fails exactly when some mandatory token has a falsy value, with the PATH error of the first one |
| HttpUtilities.SubstituteStep | src/utilities/public/http-utilities/http-utilities.ts:150-158 | one turn: a missing mandatory value throws; otherwise the placeholder is replaced by the value's text (null and undefined read as "") |
| HttpUtilities.ReplacePathParameters | src/utilities/public/http-utilities/http-utilities.ts:149-159 | the loop computes the replacement function |
| HttpUtilities.PathWithParametersOutcome | src/utilities/public/http-utilities/http-utilities.ts:140-162 | an empty path or one without tokens is returned as it is; otherwise the call fails exactly at the first missing mandatory token, and a success has no `//` and no trailing `/` |
| HttpUtilities.SetPathParameters | src/utilities/public/http-utilities/http-utilities.ts:140-162 | returns or throws what the specification function gives |
| HttpUtilities.AppendQueryParametersRender | src/utilities/public/http-utilities/http-utilities.ts:112-129 | on success the path is extended by exactly `?n=v&...` (or `&n=v...` after an existing `?`) for the parameters with truthy values, in declaration order |
| HttpUtilities.AppendQueryParametersFailure | src/utilities/public/http-utilities/http-utilities.ts:112-123 | the loop fails exactly at the first mandatory parameter with a falsy value, with its QUERY error |
| HttpUtilities.QueryPairsEncoded | src/utilities/public/http-utilities/http-utilities.ts:125-127 | every appended value is percent-encoded and holds none of `&`, `=`, `?`, `#` |
| HttpUtilities.PathWithQueryOutcome | src/utilities/public/http-utilities/http-utilities.ts:106-132 | without a path, declarations or data the path is returned as it is; otherwise the call fails at the first missing mandatory parameter or appends the rendered query |
| HttpUtilities.SetQueryParameters | src/utilities/public/http-utilities/http-utilities.ts:106-132 | returns or throws what the specification function gives |
| HttpUtilities.LastHeaderValueLowerCase | src/utilities/public/http-utilities/http-utilities.ts:192 | only a lower-case key can be written by a header declaration |
| HttpUtilities.CollectHeadersGet | src/utilities/public/http-utilities/http-utilities.ts:177-193 | after the loop each key holds the string value of the last declaration whose lower-cased name is the key, or its earlier value |
| HttpUtilities.CollectHeadersValid | src/utilities/public/http-utilities/http-utilities.ts:177-193 | the header loop keeps the record well formed |
| HttpUtilities.CollectHeadersFailure | src/utilities/public/http-utilities/http-utilities.ts:177-190 | the header loop fails exactly at the first mandatory declaration without a string value, with its HEADER error |
| HttpUtilities.RequestHeadersOutcome | src/utilities/public/http-utilities/http-utilities.ts:170-196 | no declarations or no data gives `{}`; otherwise the call fails at the first missing mandatory header, or gives a record holding the last string value per lower-cased name; every key is lower case |
| HttpUtilities.PrepareRequestHeaders | src/utilities/public/http-utilities/http-utilities.ts:170-196 | returns or throws what the specification function gives |
| HttpUtilities.CollectBodyGet | src/utilities/public/http-utilities/http-utilities.ts:210-226 | after the loop a declared name with a non-null value holds that value; other keys are unchanged |
| HttpUtilities.CollectBodyValid | src/utilities/public/http-utilities/http-utilities.ts:210-226 | the body loop keeps the record well formed |
| HttpUtilities.CollectBodyFailure | src/utilities/public/http-utilities/http-utilities.ts:210-223 | the body loop fails exactly at the first mandatory declaration whose value is null or undefined, with its BODY error |
| HttpUtilities.RequestBodyOutcome | src/utilities/public/http-utilities/http-utilities.ts:204-229 | no declarations or no data gives undefined; otherwise the call fails at the first missing mandatory parameter, or gives a record whose keys are exactly the declared names with non-null values, each holding its value |
| HttpUtilities.PrepareRequestBody | src/utilities/public/http-utilities/http-utilities.ts:204-229 | returns or throws what the specification function gives |
| HttpUtilities.ElementEntries | src/utilities/public/http-utilities/http-utilities.ts:273-275 | appending an array adds one entry per element, in order, each with the element's text |
| HttpUtilities.AppendKeyEntriesConcat | src/utilities/public/http-utilities/http-utilities.ts:293-307 | the inner key loop adds exactly the entries of the keys' values, after the existing ones |
| HttpUtilities.AppendScalarFieldsFailure | src/utilities/public/http-utilities/http-utilities.ts:246-269 | the first loop fails exactly at the first mandatory non-array field without a value, with its FORM error |
| HttpUtilities.AppendScalarFieldsSuccess | src/utilities/public/http-utilities/http-utilities.ts:246-280 | on success the first loop adds the scalar fields' entries and sets aside the array declarations, both in order |
| HttpUtilities.ScalarFieldStep | src/utilities/public/http-utilities/http-utilities.ts:247-279 | one field either is set aside as an array, adds nothing (null or undefined), or adds its value's entries |
| HttpUtilities.AppendArrayFieldsOutcome | src/utilities/public/http-utilities/http-utilities.ts:283-308 | the second loop fails exactly at the first mandatory array field that no inbound key starts with; otherwise it adds the matching keys' entries |
| HttpUtilities.ArrayFieldStep | src/utilities/public/http-utilities/http-utilities.ts:284-307 | one array field: throws when mandatory and unmatched, otherwise adds the entries of its matching keys |
| HttpUtilities.FormDataOutcome | src/utilities/public/http-utilities/http-utilities.ts:237-311 | no fields or no data gives undefined; otherwise scalar failures come first, then array failures, and a success holds the scalar entries followed by the array entries |
| HttpUtilities.FormValueEntries | src/utilities/public/http-utilities/http-utilities.ts:258-279 | for a FormData bag a field's value is missing exactly when it has no entries, and otherwise adds exactly its entries again |
| HttpUtilities.ArrayEntriesNames | src/utilities/public/http-utilities/http-utilities.ts:283-308 | every array-field entry is named by an inbound key that starts with one of the array names |
| HttpUtilities.KeyEntriesNames | src/utilities/public/http-utilities/http-utilities.ts:293-307 | every entry of the inner loop is named by one of its keys |
| HttpUtilities.ValueEntriesNames | src/utilities/public/http-utilities/http-utilities.ts:271-279 | every entry a value adds carries the field's name |
| HttpUtilities.ScalarEntriesNames | src/utilities/public/http-utilities/http-utilities.ts:246-280 | every scalar entry is named by a declared non-array field |
| HttpUtilities.AppendValue | src/utilities/public/http-utilities/http-utilities.ts:271-279 | the form data gains exactly the value's entries at the end |
| HttpUtilities.AppendScalarFieldsTo | src/utilities/public/http-utilities/http-utilities.ts:246-280 | the first loop fails or fills the form data as its specification function does, returning the array declarations |
| HttpUtilities.AppendKeyValues | src/utilities/public/http-utilities/http-utilities.ts:293-307 | the inner loop appends the matching keys' entries as its specification function does |
| HttpUtilities.AppendArrayFieldsTo | src/utilities/public/http-utilities/http-utilities.ts:283-308 | the second loop fails or fills the form data as its specification function does |
| HttpUtilities.PrepareFormData | src/utilities/public/http-utilities/http-utilities.ts:237-311 | returns undefined, throws, or returns a fresh FormData holding exactly the specified entries |
| HttpWebRequests.FieldLineSplit | src/http-web-request.ts:189-194 | a line is skipped exactly when it has no colon; otherwise it splits at its first colon and the value is trimmed |
| HttpWebRequests.FieldValuesMembers | src/http-web-request.ts:188-194 | a value is collected for a name exactly when some line of the block splits into that name and value |
| HttpWebRequests.StoredHeaderValueRoundTrip | src/http-web-request.ts:197-216 | the stored form of a header (string for one value, array for more) and its list of values invert each other |
| HttpWebRequests.AddHeaderValueShape | src/http-web-request.ts:197-216 | adding a value keeps the record well formed, and every array holds at least two values |
| HttpWebRequests.AddHeaderValueGet | src/http-web-request.ts:195-216 | adding a value appends it to that name's values and to no other name's |
| HttpWebRequests.HeaderStepShape | src/http-web-request.ts:188-217 | one line keeps the record well formed, and every array holds at least two values |
| HttpWebRequests.HeaderStepGet | src/http-web-request.ts:188-217 | one line appends its value to its name's values, and to nothing else |
| HttpWebRequests.FoldHeaderLinesShape | src/http-web-request.ts:188-217 | the loop over the lines keeps the record well formed, and every array holds at least two values |
| HttpWebRequests.FoldHeaderLinesGet | src/http-web-request.ts:188-217 | after the loop each name's values are its earlier values followed by the values of its lines, in arrival order |
| HttpWebRequests.AddResponseHeaderLine | src/http-web-request.ts:189-216 | the loop body computes one line's step of the fold |
| HttpWebRequests.ParseHeaderBlockGet | src/http-web-request.ts:184-219 | each name maps to its single value, or to all its values in order when repeated, and is present exactly when some line carries it |
| HttpWebRequests.DefaultedFlag | src/http-web-request.ts:57-65 | a JSON parsing switch ends up set, and is off exactly when it was explicitly false |
| HttpWebRequests.NormalisedBodyProperties | src/http-web-request.ts:72-84 | with request parsing on, a plain array or object becomes its JSON text and anything else is unchanged; the result never needs converting again, and normalising is idempotent |
| HttpWebRequests.LoweredHeaderNames | src/http-web-request.ts:67-69 | lower-casing the request headers leaves exactly the lower-cased names |
| HttpWebRequests.LoweredHeaderValues | src/http-web-request.ts:67-69 | without case collisions no header value is lost |
| HttpWebRequests.WithJsonContentTypeNames | src/http-web-request.ts:73-80 | forcing the JSON content type adds at most `content-type`, and all names stay lower case |
| HttpWebRequests.NormalisedHeaderNames | src/http-web-request.ts:67-84 | the request header names are the lower-cased names, plus `content-type` when the body goes out as JSON |
| HttpWebRequests.NormalisedContentType | src/http-web-request.ts:73-80 | a body sent as JSON has a `content-type` that is "application/json" or mentions JSON |
| HttpWebRequests.NormalisedHeaderValues | src/http-web-request.ts:67-80 | without collisions each header keeps its value, except a `content-type` without "JSON" for a JSON body, which becomes "application/json" |
| HttpWebRequests.NormaliseRequestHeaders | src/http-web-request.ts:67-84 | rewrites the request header record in place to its normalised form, all names lower case |
| HttpWebRequests.HeaderCallsCover | src/http-web-request.ts:295-299 | one `setRequestHeader` call per name, the i-th with the i-th name and its value |
| HttpWebRequests.SendHeadersExactlyOnce | src/http-web-request.ts:295-299 | every request header is sent with its own value, and no name is sent twice |
| HttpWebRequests.FailureResponse | src/http-web-request.ts:301-329 | abort, timeout and error (and nothing else) resolve with status -4, -3 and -2, a message and the options, and nothing more |
| HttpWebRequests.DefaultOptions | src/http-web-request.ts:50-65 | a bare URL gets fresh options with both JSON switches on; given options are kept and only their JSON switches are defaulted |
| HttpWebRequests.HttpWebRequest.constructor | src/http-web-request.ts:40-84 | options defaulted as above; the header record (the options' own, or a fresh `{}`) normalised in place; the body normalised; every counter at zero, state 0 "UNSENT", nothing sent, fired or settled |
| HttpWebRequests.HttpWebRequest.ParseContent | src/http-web-request.ts:161-178 | done exactly at readyState 4 when parsing does not throw; text for a JSON or TEXT content type; JSON data only for JSON with response parsing on |
| HttpWebRequests.HttpWebRequest.ParseResponseHeaders | src/http-web-request.ts:180-222 | parsed once and cached; undefined before readyState 2; otherwise the header block folded |
| HttpWebRequests.HttpWebRequest.HandleUploadProgressEvent | src/http-web-request.ts:224-248 | records computability; the counters and percentage change only on a computable progress event; fires the mapped upload event with the new values |
| HttpWebRequests.HttpWebRequest.HandleDownloadProgressEvent | src/http-web-request.ts:250-281 | a state change sets the state and its name; a progress event records computability and, when computable, the counters; fires the mapped event with the response |
| HttpWebRequests.HttpWebRequest.Resolve | src/http-web-request.ts:346 | only the first resolution of the promise counts |
| HttpWebRequests.HttpWebRequest.SendAsync | src/http-web-request.ts:283-353 | whatever the header record and options hold at the time, opens with method (GET by default), URL, timeout (0), arraybuffer and credentials (false), sets each header once in key order, then sends the body |
| HttpWebRequests.HttpWebRequest.Abort | src/http-web-request.ts:355-357 | the transport is told to abort, and nothing else changes |
| HttpWebRequests.HttpWebRequest.OnProgressEvent | src/http-web-request.ts:301-329 | the computable flag comes from the event; the download counters and percentage are set on a computable `progress` event and kept otherwise; the state stays; one download event carrying those counters and no response is fired; a sent request settles with the failure response of abort, timeout or error unless it already settled |
| HttpWebRequests.HttpWebRequest.DeliverResponse | src/http-web-request.ts:331-349 | at readyState 4 the state becomes DONE, the download counters stay, the headers are parsed and memoised, the state-change event carries the response, and a non-zero status settles the promise with it |
| HttpWebRequests.HttpWebRequest.OnReadyStateChange | src/http-web-request.ts:331-349 | before sending nothing changes; the download counters never change; at readyState 4 textual content becomes `textData` and, with response parsing on, JSON content is parsed into `jsonData`; a throwing JSON parse stops the listener; before readyState 4 only the state and a state-change event change; at 4 the response is built from that content, fired and, for a non-zero status, settles the promise; a settled promise never changes |

## Left out

- Creating the XMLHttpRequest and registering listeners (src/http-web-request.ts:43-47, 86-105, 433-471) are not modelled. The transport is replaced by the arguments of the signal methods and the `transportLog` of calls made on it. The listener order the source sets up is kept in how `OnProgressEvent` and `OnReadyStateChange` combine the handler with the resolution.
- The event manager's `fireEventListeners` is an append to the ghost `events` log. Listener code is not run.
- The Promise of `sendAsync` is the `settled` field. Asynchrony and interleaving are not modelled.
- `JSON.stringify`, `JSON.parse` and `StringUtilities.fromBytes` are opaque functions of a `Host` parameter. A throwing `JSON.parse` is `None`. src/utilities/internal/string-utilities.ts is not part of this model.
- src/http-client.ts is not part of this model. Only the engine and the utilities are.
- `_isArrayBufferView` and the `instanceof` checks on host body types are replaced by a `HostBodyKind` tag. A host object never counts as a plain object.
- The getters (src/http-web-request.ts:108-154) only return fields, which the model reads directly.
- JavaScript numbers are integers in data bags and counters, and reals in percentages. NaN, infinities, fractions in data and floating-point rounding are not modelled. `ToJsString` and `IntToDecimal` write every integer in full, whereas JavaScript's `String(n)` switches to exponent notation (`1e+21`) once |n| reaches 10^21.
- `toLowerCase` and `toUpperCase` map ASCII letters only. Unicode case mapping, including case changes that alter the length, is not modelled.
- `\w` in the path pattern is the ASCII word characters, as in JavaScript without the `u` flag. Only the one pattern the binder uses is modelled, not general regular expressions.
- JsStrings.ReplaceFirst: does not interpret `$` patterns in the replacement text. A path value holding `$&`, `$1` and the like is inserted literally.
- JsValues.Dict: every key enumerates in insertion order. JavaScript enumerates integer-like keys first, in numeric order, and that is not modelled.
- FormData entries are strings. Blob and File entries, and the file name argument of `append` and `set`, are not modelled.
- Binder reads: the binders read the data bag through a `BagView` snapshot. This is faithful because they never write to it. Only `PrepareFormData` takes the live bag, and it reads that bag once.
- HttpWebRequests.HttpWebRequest.SendAsync: requires that `sendAsync` was not called before. Calling it twice in the source re-opens the transport and registers the listeners a second time. The model does not follow that.
- HttpErrors.HttpError.constructor: the stack the JavaScript engine captures when an error is created is a parameter, `capturedStack`.
- Loop bodies that the proofs needed as methods are separate methods. They compute the same steps in the same order:
  - `AddResponseHeaderLine` for the header loop;
  - `AppendKeyValues` for the inner form-data loop;
  - `DefaultOptions` for the start of the constructor.
