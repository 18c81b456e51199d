# HttpClientCLI request construction, in Dafny

HttpClientCLI is a small command-line HTTP client with four subcommands
(`get`, `post`, `put`, `delete`). Each invocation builds one request and sends
it. This project models how that request is built:

- `HeaderParse` (header_parse.dfy): `parse_key_val`. It turns a `-H key=value`
  token into a pair by splitting at the first `=`. A token with no `=` is rejected.
  The parser does not reject an empty key or value, so `"=v"` and `"k="` both
  parse.
- `Url` (url.dfy): `ensure_url_prefix`. It prepends `http://` unless the URL
  already starts with `http://` or `https://`.
- `HeaderMap` (header_map.dfy): `build_headers`. It is a loop that inserts each
  pair into a name→value map. A pair whose name or value the http crate refuses
  is skipped, and a later insert replaces an earlier one.
  `HeaderMapOf` is the specification of the loop: the pairs folded in from
  first to last.
- `Request` (request.dfy): the per-subcommand arms of `main`, up to the send.
  Each arm yields a request description: method, normalised URL, header steps
  and body (`NoBody | Raw(data) | File("file", bytes)`).
  `Prepare` is the specification. `Dispatch` and `BuildWithPayload` follow the
  code of `main`, including the reassignment of `req` when a JSON body is added.
- `Wrappers` (wrappers.dfy): `Option` and `Result`.

Header steps are the builder calls that touch headers, in call order:
`SetHeaders(map)` for `.headers(..)` and `SetHeader(name, value)` for
`.header(..)`. This records that the JSON Content-Type is applied after the
user's headers without deciding how reqwest merges the two.

## Model

| member | source | states |
|---|---|---|
| `HeaderParse.FirstIndex` | src/main.rs:103 | Finds the first `=`. The result is absent exactly when the character does not occur. Otherwise it is an index holding that character with no earlier occurrence. |
| `HeaderParse.ParseKeyVal` | src/main.rs:102-108 | Fails exactly when the token has no `=`. On success, key + "=" + value is the token and the key contains no `=`. |
| `HeaderParse.ParseJoined` | src/main.rs:102-108 | Round trip in the other direction: parsing key + "=" + value gives back (key, value) for any key without `=`. So the split is unique, and empty keys, empty values and values containing `=` are all accepted. |
| `HeaderParse.SplitsAtFirstSeparator` | src/main.rs:103-107 | Examples: "a=b=c" gives ("a", "b=c"), "a=" gives ("a", ""), "=b" gives ("", "b"), and "ab" is rejected. |
| `Url.EnsureUrlPrefix` | src/main.rs:120-126 | The result always starts with `http://` or `https://`. It equals the input exactly when the input already did. Otherwise it is `http://` followed by the input. The input is always a suffix of the result. |
| `Url.EnsureUrlPrefixIdempotent` | src/main.rs:120-126 | Normalising twice gives the same result as normalising once. |
| `Url.EnsureUrlPrefixExamples` | src/main.rs:120-126 | Examples: `example.com` gets `http://`, `https://example.com` is unchanged, and `ftp://example.com` still gets `http://` in front. |
| `HeaderMap.BuildHeaders` | src/main.rs:110-118 | The loop never fails and returns the fold of the pairs from first to last, in which a pair is inserted only when both its name and its value are accepted. |
| `HeaderMap.HeaderMapKeys` | src/main.rs:110-118 | A name is a key of the built map exactly when some accepted pair carries that name. |
| `HeaderMap.LastWriteWins` | src/main.rs:112-114 | For an accepted pair with no later accepted pair of the same name, the map stores that pair's value under its name. |
| `HeaderMap.RejectedPairIgnored` | src/main.rs:113-115 | Removing a refused pair from anywhere in the list leaves the built map unchanged. |
| `Request.Prepare` | src/main.rs:132-173 | Building fails exactly when a POST/PUT names a file that cannot be read, and the failure carries the read error. On success the method matches the subcommand and the URL is the user's URL normalised by `EnsureUrlPrefix`. The first header step is the user's header map. A JSON Content-Type step is present exactly when the body is raw data. |
| `Request.Dispatch` | src/main.rs:132-173 | Following `main`'s match, produces exactly the request (or abort) that `Prepare` describes. |
| `Request.BuildWithPayload` | src/main.rs:138-166 | The POST/PUT arms. The file is read first, and an unreadable file aborts. Otherwise `req` is reassigned with the JSON header and body when data is given. The result is what `Prepare` describes. |
| `Request.BodylessVerbs` | src/main.rs:133-171 | GET and DELETE always build a request with no body and only the user's header map. |
| `Request.FileTakesPrecedence` | src/main.rs:140-143 | POST/PUT with a readable file: the body is the file's bytes under part "file", no JSON header is added, and replacing `-d` data by any other value changes nothing. |
| `Request.DataBecomesJsonBody` | src/main.rs:144-149 | POST/PUT with data and no file: the body is the data, and the steps are the user's header map followed by `content-type: application/json`. |
| `Request.NoPayloadNoBody` | src/main.rs:144-149 | POST/PUT with neither data nor file: the request has no body and only the user's header map. |

## Left out

- Argument parsing by clap (src/main.rs:36-100): the model starts from parsed `Command` values. The `-H` parser is modelled, but how clap collects its results into a list is not.
- Client construction with its 10-second timeout, and every `.send()`: network I/O.
- The `Abort` value also records the path that could not be read. The program itself prints only its fixed message and the I/O error, which does not name the path.
- `fs::read`: it is an input function `read` from path to bytes or an error message. The `expect` panic on failure becomes an `Abort` value returned before any request exists.
- Multipart encoding: the body records only the part name `"file"` and the bytes. The multipart Content-Type and boundary that reqwest adds are not modelled.
- `HeaderName::from_bytes` and `HeaderValue::from_str` are abstract. The rules in `HeaderRules` give a name's validity and stored (case-normalised) form, and a value's validity. The http crate's actual rules are not modelled.
- Whether the JSON Content-Type replaces a user-supplied Content-Type or sits beside it is decided inside reqwest's `RequestBuilder::header`. The model records only that it is applied after the user's headers.
- `handle_response` (src/main.rs:176-193): printing to stdout and stderr.
- Strings are sequences of characters. Rust's `&str` is UTF-8 bytes, but for a one-byte separator such as `=`, splitting and prefix tests give the same results either way.
