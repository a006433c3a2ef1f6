# Receipt Extractor client: verified model

The Receipt Extractor service takes a receipt image and returns its contents as
JSON of one fixed shape: `merchant_name`, `datetime`, `items` (each with `name`,
`price` and `count`), `sub_total`, `vat`, `service_charge` and `total`. Its Python
example client, `ReceiptExtractorClient`, sends images to the service and can check
the JSON it gets back. This project models that client's logic in Dafny and proves
properties of it:

- **Schema validation** (`validate_schema`), in module `Schema` (`schema.dfy`). It
  checks a decoded JSON object against the receipt shape. It either accepts the
  object or reports the first failed check, and the checks run in a fixed order.
  `SchemaVerdict` is a pure specification of the verdict. `ValidateSchema` is the
  Python's three early-exit loops followed by the two string checks, proved to
  return `SchemaVerdict`. The lemmas
  state when the verdict is `Valid`, which error is reported first, and that keys
  outside the schema never matter.
- **Input guards and request preparation**, in module `ReceiptClient`
  (`client.dfy`):
  - the constructor refuses an empty API key;
  - a file path's suffix is lower-cased and mapped to an image MIME type, and an
    unlisted suffix is refused;
  - a content type that does not start with `image/` is refused;
  - `X-API-Key` is added to the headers only when the caller supplied neither
    `X-API-Key` nor `Authorization`.
- `JsonValues` (`json_values.dfy`) holds the decoded JSON value and Python's
  `isinstance` tests. `Wrappers` (`wrappers.dfy`) holds `Option` and `Result`.

A Python quirk is reproduced on purpose. `bool` is a subclass of `int`, so `true`
and `false` pass as a `price`, a `count` and a money field. The service's
documented receipt schema types these fields as number and integer. The model
follows the client code, and `Schema.BooleansPassNumericChecks` and `Schema.BooleanMoneyFieldPasses`
state the quirk.

The network, the file system and JSON decoding are not modelled. What they would
produce (whether the file exists, its bytes, the fetched content type) is passed
in as a parameter.

## Model

| member | source | states |
|---|---|---|
| `Schema.ValidateSchema` | examples/receipt_extractor_client.py:190-253 | The three early-exit loops and the two string checks after them return exactly the specified verdict, `SchemaVerdict(data)`. The method takes a value and modifies nothing. |
| `Schema.FirstMissing` | examples/receipt_extractor_client.py:204-208 | Gives the index of the first listed key the map lacks. It gives none exactly when every key is present. |
| `Schema.FirstMalformedItem` | examples/receipt_extractor_client.py:215-237 | Gives the lowest index of an item that is not well formed. It gives none exactly when every item is well formed. |
| `Schema.FirstNonNumber` | examples/receipt_extractor_client.py:240-244 | Gives the first money field, in the order sub_total, vat, service_charge, total, that is not an int or float. It gives none exactly when all four are numbers. |
| `Schema.ItemVerdict` | examples/receipt_extractor_client.py:216-237 | An item passes exactly when it is a dict with a string `name`, a numeric `price` and an integer `count`. Every error it reports is an item error carrying the item's own index. A non-dict item gives `ItemNotDict`. Once the three keys are present, the type checks run name, then price, then count: each type error is reported exactly when that field has the wrong type and the fields before it are fine. |
| `Schema.ValidIffWellShaped` | examples/receipt_extractor_client.py:204-253 | Validation succeeds exactly when the receipt has the fixed shape: all seven keys, `items` a list of well-formed items, four numeric money fields, and string `merchant_name` and `datetime`. |
| `Schema.MissingFieldReportedFirst` | examples/receipt_extractor_client.py:204-208 | The reported error is `MissingField(REQUIRED_FIELDS[k])` exactly when that key is absent and every earlier key is present. So a missing key comes before any type error, and it is the first missing key in order. |
| `Schema.MissingFieldIsRequired` | examples/receipt_extractor_client.py:206-208 | A reported missing field is one of the seven required keys, and it is absent from the data. |
| `Schema.ItemErrorAtLowestIndex` | examples/receipt_extractor_client.py:215-237 | Suppose all keys are present and `items` is a list. Then the error is the item error of the lowest malformed index, whatever the money and string fields hold. |
| `Schema.ItemMissingBeforeWrongType` | examples/receipt_extractor_client.py:219-237 | In a dict item, a missing key is reported before any type error. The key reported is the first missing one of name, price, count. |
| `Schema.MoneyFieldBeforeStringFields` | examples/receipt_extractor_client.py:239-251 | Suppose the keys and the items are fine. Then the first non-numeric money field is reported, before any check on `merchant_name` or `datetime`. |
| `Schema.BadVatReportedBeforeBadMerchant` | examples/receipt_extractor_client.py:239-251 | A record with a string `vat` and an integer `merchant_name` is reported as `FieldNotNumber("vat")`. |
| `Schema.BooleansPassNumericChecks` | examples/receipt_extractor_client.py:233-244 | A dict item whose `name` is a string and whose `price` and `count` are booleans passes, because Python's `bool` is an `int`. |
| `Schema.SchemaVerdict` | examples/receipt_extractor_client.py:204-253 | The specified verdict. A reported missing field is a required key absent from the data. An item error is reported only when `items` is a list, and its index lies within that list. A non-numeric field reported is one of the four money fields. |
| `Schema.ItemsNotListReported` | examples/receipt_extractor_client.py:210-212 | When all seven keys are present and `items` is not a list, the verdict is `ItemsNotList`, whatever the other fields hold. |
| `Schema.StringFieldsInOrder` | examples/receipt_extractor_client.py:246-253 | Suppose the keys, the items and the money fields are fine. A non-string `merchant_name` is reported first; with a string `merchant_name`, a non-string `datetime` is reported; with both strings the record is valid. |
| `Schema.BooleanMoneyFieldPasses` | examples/receipt_extractor_client.py:240-244 | A valid record stays valid when any one money field is replaced by `true` or `false`, because Python's `bool` is an `int`. |
| `JsonValues.IsStr` | examples/receipt_extractor_client.py:230-231 | A string is never a number. |
| `JsonValues.IsInt` | examples/receipt_extractor_client.py:236-237 | Booleans pass the integer test; floats do not. |
| `JsonValues.IsNumber` | examples/receipt_extractor_client.py:233-234 | Only booleans, integers and floats are numbers, never a string, null, list or dict. Every integer is a number. |
| `ReceiptClient.LastIndexOf` | examples/receipt_extractor_client.py:63 | Gives -1 or an index holding the character, and no later index holds it. So it is the last occurrence, or -1 when there is none. |
| `ReceiptClient.IsImageContentType` | examples/receipt_extractor_client.py:101-102 | A type that passes has at least six characters and is `image/` followed by the rest. |
| `ReceiptClient.ImagePrefixCheck` | examples/receipt_extractor_client.py:101-102 | `image/` followed by anything passes the check. The check is case-sensitive, so `Image/` and `IMAGE/` do not pass, and neither do `image` and the empty string. |
| `ReceiptClient.BareNameLookupUsesSuffix` | examples/receipt_extractor_client.py:62-76 | For a bare file name `stem.ext`, the path lookup is the lookup of `.ext`. |
| `Schema.StripItemKeepsVerdict` | examples/receipt_extractor_client.py:216-237 | Removing every key except name, price and count from an item does not change its verdict. |
| `Schema.SameVerdictWhenItemsAgree` | examples/receipt_extractor_client.py:204-253 | Two records get the same verdict when three things hold. They have the same required keys. They hold equal values under every required key except `items`. Their item lists agree item by item on the item verdict. |
| `Schema.ExtraKeysIgnored` | examples/receipt_extractor_client.py:204-253 | Dropping every key outside the schema, at top level and inside items, leaves the verdict unchanged. |
| `ReceiptClient.NewClient` | examples/receipt_extractor_client.py:23-37 | Construction fails with `ApiKeyRequired` exactly when the key is empty. Otherwise the client keeps the URL, key and timeout it was given. The timeout defaults to 30 seconds (`DEFAULT_TIMEOUT`), as in `__init__`. |
| `ReceiptClient.Lower` | examples/receipt_extractor_client.py:63 | Keeps the length and lower-cases each character. |
| `ReceiptClient.FileName` | examples/receipt_extractor_client.py:55-56 | The file name of a path contains no `/`, is never `.`, and is no longer than the path. A path with no `/` that is not `.` is its own file name. |
| `ReceiptClient.Suffix` | examples/receipt_extractor_client.py:63 | The suffix is empty, or it is a dot followed by at least one non-dot character and is a proper tail of the name. |
| `ReceiptClient.ContentTypeForExtension` | examples/receipt_extractor_client.py:63-76 | The lookup succeeds exactly when the lower-cased suffix is in the table. On success it gives the table's type, which starts with `image/`. On failure it raises `UnsupportedImageFormat` naming the lower-cased suffix. |
| `ReceiptClient.ContentTypeForPath` | examples/receipt_extractor_client.py:62-76 | The lookup succeeds exactly when the lower-cased suffix of the path's file name is in the table, and then gives that table entry, which starts with `image/`. Otherwise it fails with `UnsupportedImageFormat` naming that lower-cased suffix, which is not in the table. |
| `ReceiptClient.WithDefaultApiKey` | examples/receipt_extractor_client.py:156-161 | Existing headers are left unchanged. The only header that can be added is `X-API-Key`, set to the client's key. Afterwards `X-API-Key` or `Authorization` is present. If either was already present, nothing changes. |
| `ReceiptClient.PrepareRequest` | examples/receipt_extractor_client.py:155-171 | The request goes to the client's URL with the given body and the client's timeout. It always carries credentials. With no headers supplied, its headers are exactly `{X-API-Key: api_key}`. With headers supplied, they are those headers after the `X-API-Key` defaulting. |
| `ReceiptClient.ProcessReceiptBytes` | examples/receipt_extractor_client.py:86-109 | Fails with `UnsupportedContentType` exactly when the content type does not start with `image/`. Otherwise the request goes to the client's URL with the client's timeout, its body is the raw bytes, and its headers are exactly Content-Type and X-API-Key. |
| `ReceiptClient.ProcessReceiptFile` | examples/receipt_extractor_client.py:39-84 | A missing file raises `FileNotFound` before any suffix check. An existing file succeeds exactly when the suffix lookup does. An existing file with a refused suffix fails with the lookup's own error. On success the file is sent as multipart field `image` to the client's URL with the client's timeout, under its file name, with the content type the suffix lookup gave, and the only header is the client's key. |
| `ReceiptClient.ProcessReceiptUrl` | examples/receipt_extractor_client.py:125-135 | Fails with `NotAnImage` exactly when the fetched Content-Type (default `""`) does not start with `image/`. Otherwise it posts the fetched bytes to the client's URL with the client's timeout, with that content type and the client's key as headers. |
| `ReceiptClient.ExtensionLookupIgnoresCase` | examples/receipt_extractor_client.py:63-76 | Upper-casing or lower-casing the suffix does not change the lookup result. |
| `ReceiptClient.AcceptedExtensions` | examples/receipt_extractor_client.py:64-76 | Exactly the seven listed suffixes are accepted, in any case. `.jpg` and `.jpeg` both give `image/jpeg`. |
| `ReceiptClient.FileContentTypePassesPrefixCheck` | examples/receipt_extractor_client.py:101-102 | Every content type the file lookup accepts also passes the `image/` check applied to raw bytes. |
| `ReceiptClient.UrlNeverRaisesUnsupportedContentType` | examples/receipt_extractor_client.py:130-135 | The URL path can fail only with `NotAnImage`. Its own `image/` check makes the later check in `process_receipt_bytes` unreachable. |
| `ReceiptClient.DefaultApiKeyIdempotent` | examples/receipt_extractor_client.py:159-161 | Applying the header defaulting twice gives the same headers as applying it once. |
| `ReceiptClient.RequestsCarryClientKey` | examples/receipt_extractor_client.py:155-161 | Suppose the caller supplied no credentials. Then every request from a successfully built client carries `X-API-Key` equal to the client's non-empty key. |
| `ReceiptClient.SuffixOfStemAndExtension` | examples/receipt_extractor_client.py:63 | The suffix of `stem + ".ext"` is `.ext` when the stem is non-empty and `ext` contains no dot. |
| `ReceiptClient.DotFileHasNoSuffix` | examples/receipt_extractor_client.py:63 | A name whose only dot is its first character, such as `.png`, has an empty suffix. |
| `ReceiptClient.FileNameOfChild` | examples/receipt_extractor_client.py:55-56 | The file name of `dir/name` is `name`. |
| `ReceiptClient.FileNameIgnoresTrailingParts` | examples/receipt_extractor_client.py:55-56 | A trailing `/` or `/.` leaves the file name unchanged, so `scan.png/` still names `scan.png`. |
| `ReceiptClient.PathLookupUsesLastSuffix` | examples/receipt_extractor_client.py:62-76 | For `dir/stem.ext`, the lookup depends only on `.ext`. The directory and any earlier dots in the stem play no part. |

## Left out

- Network I/O is not modelled. This covers `requests.post` and `requests.get`, `raise_for_status`, timeouts, network exceptions and how an error message is read from an HTTP reply. `PrepareRequest` stops at the request that would be posted.
- File system I/O is not modelled. Whether the file exists and what it holds are parameters of `ProcessReceiptFile`.
- `main` is not modelled: argument parsing, printing and writing the output file are command-line plumbing.
- JSON decoding (`response.json()`) and encoding (`json.dumps`) are not modelled. The validator takes an already decoded value.
- The service's server-side extraction pipeline and normaliser are not part of this model.
- The values of prices and totals are not modelled. Only their JSON type matters to the validator.
- Error messages are modelled as error kinds (`SchemaError`, `ClientError`), not as their text.
- `Schema.ValidateSchema` takes a JSON object (`map<string, Json>`), the declared parameter type `Dict[str, Any]`. Other arguments are not modelled. With a list or a string, Python's `in` tests list membership or substrings: a missing `merchant_name` still gives the missing-field error, and `TypeError` comes only at `data['items']` when all seven names pass. With `None` or a number, the first `in` raises `TypeError`.
- `ReceiptClient.Lower`: only ASCII letters are lower-cased. Python's `str.lower` also folds non-ASCII letters, which cannot occur in any suffix the table accepts.
- `ReceiptClient.FileName`: POSIX paths only. Empty and `.` components are collapsed, as `pathlib` does (`ReceiptClient.FileNameIgnoresTrailingParts` states it for trailing ones); Windows drive and backslash rules are not modelled.
- `ReceiptClient.Suffix` follows the rule that the suffix starts at the last dot of the file name, unless that dot is the name's first or last character.
- `ReceiptClient.WithDefaultApiKey` returns the updated headers instead of changing the caller's dict in place. `process_receipt_file` passes no headers, so `_send_request` builds the empty dict itself, and `process_receipt_bytes` passes a dict it has just built. So no dict the caller can see is ever changed, and no one can see the difference.
- `ReceiptClient.ProcessReceiptUrl` takes the fetched `Content-Type` header as an `Option`. The case-insensitive header lookup of `requests` happens before that.
- `ReceiptClient.NewClient` takes the key as a string, so an empty string is the only falsy key. A `None` key is not modelled.
