/**
 * The image-upload wrapper around Cloudinary's upload API: the string-to-sign
 * of the signed-upload scheme, the configuration check, and the form the
 * upload posts, with the signature or the unsigned preset. SHA-1, the clock
 * and the HTTP call are parameters.
 */
module Cloudinary {
  import opened Wrappers
  import opened JsString
  import opened JsValues
  import opened StableSort

  // ---------------------------------------------------------------- signParams

  /** A parameter takes part in the signature unless it is `undefined`, `null` or `''`. */
  predicate Signed(v: Scalar) {
    v != Missing && v != Null && v != Str("")
  }

  /** No key occurs twice in `keys`. */
  predicate Distinct(keys: seq<string>) {
    forall i, j :: 0 <= i < j < |keys| ==> keys[i] != keys[j]
  }

  /** `keys` is `Object.keys(params)`: every key of the object once, in insertion order. */
  predicate Enumerates(keys: seq<string>, params: map<string, Scalar>) {
    && Distinct(keys)
    && (forall k :: k in keys ==> k in params)
    && (forall k :: k in params ==> k in keys)
  }

  /** `params[key]`: `undefined` for a key the object does not have. */
  function Get(params: map<string, Scalar>, key: string): Scalar {
    if key in params then params[key] else Missing
  }

  /** The keys whose value is signed, in the order of `keys`. */
  function Included(keys: seq<string>, params: map<string, Scalar>): (r: seq<string>)
    ensures forall k :: k in r <==> k in keys && Signed(Get(params, k))
    ensures forall k :: multiset(r)[k] <= multiset(keys)[k]
  {
    if keys == [] then []
    else
      var init := keys[..|keys| - 1];
      var last := keys[|keys| - 1];
      assert keys == init + [last];
      Included(init, params) + (if Signed(Get(params, last)) then [last] else [])
  }

  /** The default order of `Array.prototype.sort` on keys. */
  const KeyOrder: (string, string) -> bool := (a: string, b: string) => StringLe(a, b)

  lemma KeyOrderTotal()
    ensures TotalPreorder(KeyOrder)
  {
    forall a: string, b: string
      ensures KeyOrder(a, b) || KeyOrder(b, a)
    {
      StringLeTotal(a, b);
    }
    forall a: string, b: string, c: string | KeyOrder(a, b) && KeyOrder(b, c)
      ensures KeyOrder(a, c)
    {
      StringLeTransitive(a, b, c);
    }
  }

  /** `${key}=${params[key]}` for each key. */
  function Pairs(keys: seq<string>, params: map<string, Scalar>): (r: seq<string>)
  {
    seq(|keys|, i requires 0 <= i < |keys| => keys[i] + "=" + Text(Get(params, keys[i])))
  }

  /** `parts.join(sep)`, which is empty for no parts. */
  function JoinAll(parts: seq<string>, sep: char): string {
    if parts == [] then "" else Join(parts, sep)
  }

  /** The keys that are signed, sorted. */
  function SignedKeys(keys: seq<string>, params: map<string, Scalar>): seq<string> {
    Sort(Included(keys, params), KeyOrder)
  }

  /** The string-to-sign: the signed `key=value` pairs in key order, joined by '&'. */
  function ToSign(keys: seq<string>, params: map<string, Scalar>): string {
    JoinAll(Pairs(SignedKeys(keys, params), params), '&')
  }

  /** `signParams`: the hex SHA-1 of the string-to-sign followed by the secret. */
  function SignParams(keys: seq<string>, params: map<string, Scalar>, apiSecret: string, sha1: string -> string): string {
    sha1(ToSign(keys, params) + apiSecret)
  }

  /** A sequence is free of repeats exactly when no element is counted twice. */
  lemma {:induction false} DistinctCount(s: seq<string>)
    ensures Distinct(s) <==> forall x :: multiset(s)[x] <= 1
  {
    if s != [] {
      var init := s[..|s| - 1];
      var last := s[|s| - 1];
      assert s == init + [last];
      DistinctCount(init);
      if Distinct(s) {
        assert Distinct(init);
        assert last !in init;
      } else {
        var i, j :| 0 <= i < j < |s| && s[i] == s[j];
        if j < |s| - 1 {
          assert init[i] == init[j];
          assert !Distinct(init);
          var x :| multiset(init)[x] > 1;
          assert multiset(s)[x] > 1;
        } else {
          assert s[i] in init;
          assert multiset(s)[last] >= 2;
        }
      }
    }
  }

  /** The first elements of two sorted arrangements of the same keys agree. */
  lemma SortedHead(a: seq<string>, b: seq<string>)
    requires Sorted(a, KeyOrder) && Sorted(b, KeyOrder) && multiset(a) == multiset(b) && a != []
    ensures b != [] && a[0] == b[0]
  {
    assert a[0] in multiset(b);
    assert b[0] in multiset(a);
    var i :| 0 <= i < |a| && a[i] == b[0];
    var j :| 0 <= j < |b| && b[j] == a[0];
    StringLeTotal(a[0], a[0]);
    assert StringLe(a[0], b[0]) by { if i > 0 { assert KeyOrder(a[0], a[i]); } }
    assert StringLe(b[0], a[0]) by { if j > 0 { assert KeyOrder(b[0], b[j]); } }
    StringLeAntisymmetric(a[0], b[0]);
  }

  /** Removing the same first element leaves the same multiset. */
  lemma MultisetTail(a: seq<string>, b: seq<string>)
    requires a != [] && b != [] && a[0] == b[0] && multiset(a) == multiset(b)
    ensures multiset(a[1..]) == multiset(b[1..])
  {
    assert a == [a[0]] + a[1..];
    assert b == [b[0]] + b[1..];
    assert multiset(a) == multiset([a[0]]) + multiset(a[1..]);
    assert multiset(b) == multiset([a[0]]) + multiset(b[1..]);
    forall x
      ensures multiset(a[1..])[x] == multiset(b[1..])[x]
    {
      assert multiset(a)[x] == multiset([a[0]])[x] + multiset(a[1..])[x];
      assert multiset(b)[x] == multiset([a[0]])[x] + multiset(b[1..])[x];
    }
  }

  /** Key order is antisymmetric, so a multiset of keys has only one sorted arrangement. */
  lemma {:induction false} SortedUnique(a: seq<string>, b: seq<string>)
    requires Sorted(a, KeyOrder) && Sorted(b, KeyOrder) && multiset(a) == multiset(b)
    ensures a == b
    decreases |a|
  {
    assert |a| == |multiset(a)| == |multiset(b)| == |b|;
    if a != [] {
      SortedHead(a, b);
      MultisetTail(a, b);
      assert Sorted(a[1..], KeyOrder) && Sorted(b[1..], KeyOrder);
      SortedUnique(a[1..], b[1..]);
      assert a == [a[0]] + a[1..] && b == [b[0]] + b[1..];
    }
  }

  /**
   * The sorted signed keys are exactly the keys whose value is not
   * `undefined`, `null` or `''`, each once, in strictly ascending order.
   */
  lemma SignedKeysExactly(keys: seq<string>, params: map<string, Scalar>)
    requires Enumerates(keys, params)
    ensures forall k :: k in SignedKeys(keys, params) <==> k in params && Signed(params[k])
    ensures forall i, j :: 0 <= i < j < |SignedKeys(keys, params)| ==>
      StringLe(SignedKeys(keys, params)[i], SignedKeys(keys, params)[j]) &&
      SignedKeys(keys, params)[i] != SignedKeys(keys, params)[j]
  {
    var inc := Included(keys, params);
    var sorted := SignedKeys(keys, params);
    KeyOrderTotal();
    SortSortedPermutation(inc, KeyOrder);
    DistinctCount(keys);
    DistinctCount(inc);
    DistinctCount(sorted);
    forall k
      ensures k in sorted <==> k in inc
    {
      assert k in sorted <==> k in multiset(sorted);
      assert k in inc <==> k in multiset(inc);
    }
    forall i, j | 0 <= i < j < |sorted|
      ensures StringLe(sorted[i], sorted[j]) && sorted[i] != sorted[j]
    {
      assert KeyOrder(sorted[i], sorted[j]);
    }
  }

  /** Two enumerations of the same object sign the same keys, so their multisets agree. */
  lemma IncludedSameMultiset(keys1: seq<string>, keys2: seq<string>, params: map<string, Scalar>)
    requires Enumerates(keys1, params) && Enumerates(keys2, params)
    ensures multiset(Included(keys1, params)) == multiset(Included(keys2, params))
  {
    var a := Included(keys1, params);
    var b := Included(keys2, params);
    DistinctCount(keys1);
    DistinctCount(keys2);
    forall x
      ensures multiset(a)[x] == multiset(b)[x]
    {
      assert x in a <==> x in multiset(a);
      assert x in b <==> x in multiset(b);
    }
  }

  /** The string-to-sign does not depend on the order in which the keys were inserted. */
  lemma InsertionOrderIrrelevant(keys1: seq<string>, keys2: seq<string>, params: map<string, Scalar>)
    requires Enumerates(keys1, params) && Enumerates(keys2, params)
    ensures ToSign(keys1, params) == ToSign(keys2, params)
  {
    KeyOrderTotal();
    SortSortedPermutation(Included(keys1, params), KeyOrder);
    SortSortedPermutation(Included(keys2, params), KeyOrder);
    IncludedSameMultiset(keys1, keys2, params);
    SortedUnique(SignedKeys(keys1, params), SignedKeys(keys2, params));
  }

  // ---------------------------------------------------------------- ensureConfig

  /** The four environment settings of the wrapper. */
  datatype Config = Config(cloudName: Option<string>, apiKey: Option<string>, apiSecret: Option<string>, uploadPreset: Option<string>)

  /** An environment setting that is present and non-empty. */
  predicate Set(o: Option<string>) {
    o.Some? && o.value != ""
  }

  const MissingNameOrKey := "Missing CLOUDINARY_CLOUD_NAME or CLOUDINARY_API_KEY"
  const MissingSecretOrPreset :=
    "Provide CLOUDINARY_API_SECRET for signed uploads or CLOUDINARY_UPLOAD_PRESET for unsigned uploads"

  /** `ensureConfig`: the error it throws, if any. */
  function ConfigError(c: Config): (e: Option<string>)
    ensures e.None? <==> Set(c.cloudName) && Set(c.apiKey) && (Set(c.apiSecret) || Set(c.uploadPreset))
    ensures e == Some(MissingNameOrKey) <==> !Set(c.cloudName) || !Set(c.apiKey)
  {
    if !Set(c.cloudName) || !Set(c.apiKey) then Some(MissingNameOrKey)
    else if !Set(c.apiSecret) && !Set(c.uploadPreset) then Some(MissingSecretOrPreset)
    else None
  }

  // ---------------------------------------------------------------- uploadToCloudinary

  /** The parsed JSON of a successful upload. */
  datatype UploadData = UploadData(secureUrl: Scalar, url: Scalar, publicId: Scalar, version: Scalar, resourceType: Scalar)

  /** The HTTP response: its `ok` flag, status, body text and parsed body. */
  datatype Response = Response(ok: bool, status: nat, text: string, data: UploadData)

  /** The names of the form fields the upload may append. */
  datatype Field = FileField | ApiKeyField | TimestampField | FolderField | PublicIdField | OverwriteField | SignatureField | PresetField

  /** The name of a field on the wire. */
  function FieldName(f: Field): string {
    match f
    case FileField => "file"
    case ApiKeyField => "api_key"
    case TimestampField => "timestamp"
    case FolderField => "folder"
    case PublicIdField => "public_id"
    case OverwriteField => "overwrite"
    case SignatureField => "signature"
    case PresetField => "upload_preset"
  }

  /** The form the upload posts, field by field in append order. */
  datatype FormPost = FormPost(url: string, body: seq<(Field, string)>)

  datatype Uploaded = Uploaded(url: Scalar, publicId: Scalar, version: Scalar, resourceType: Scalar)

  /** A thrown error: its message and, for a refused upload, the HTTP status. */
  datatype UploadError = UploadError(message: string, status: Option<nat>)

  /** The request posted, if any, and what the call returns or throws. */
  datatype Attempt = Attempt(request: Option<FormPost>, result: Result<Uploaded, UploadError>)

  const InvalidFile := "Invalid file payload"

  /** `Math.round(Date.now() / 1000)`: the nearest second, halves rounded up. */
  function Timestamp(nowMs: int): (t: int)
    ensures 1000 * t - 500 <= nowMs < 1000 * t + 500
  {
    (nowMs + 500) / 1000
  }

  /** The `folder` option, `'profiles'` when it is not given. */
  function FolderOf(folder: Scalar): Scalar {
    if folder == Missing then Str("profiles") else folder
  }

  /** The parameters that are signed: `{ timestamp, folder, public_id, overwrite: true }`. */
  function Params(timestamp: int, folder: Scalar, publicId: Scalar): map<string, Scalar> {
    map["timestamp" := Num(timestamp as real), "folder" := folder, "public_id" := publicId, "overwrite" := Bool(true)]
  }

  const ParamKeys: seq<string> := ["timestamp", "folder", "public_id", "overwrite"]

  /** A field name that occurs nowhere in a form. */
  predicate Absent(body: seq<(Field, string)>, name: Field) {
    forall i :: 0 <= i < |body| ==> body[i].0 != name
  }

  /** `if (value) body.append(name, value)`: the field when its value is truthy. */
  function OptionalField(name: Field, value: Scalar): seq<(Field, string)> {
    if Truthy(value) then [(name, Text(value))] else []
  }

  /** The fields appended before the authentication field. */
  function UnsignedBody(c: Config, file: string, timestamp: int, folder: Scalar, publicId: Scalar): seq<(Field, string)>
    requires c.apiKey.Some?
  {
    [(FileField, file), (ApiKeyField, c.apiKey.value), (TimestampField, IntText(timestamp))]
    + OptionalField(FolderField, folder)
    + OptionalField(PublicIdField, publicId)
    + [(OverwriteField, "true")]
  }

  /** The signature field when a secret is set, else the preset field when a preset is set. */
  function AuthFields(c: Config, signature: string): seq<(Field, string)> {
    if Set(c.apiSecret) then [(SignatureField, signature)]
    else if Set(c.uploadPreset) then [(PresetField, c.uploadPreset.value)]
    else []
  }

  /** The form fields, in the order the upload appends them. */
  function FormBody(c: Config, file: string, timestamp: int, folder: Scalar, publicId: Scalar, signature: string): seq<(Field, string)>
    requires c.apiKey.Some?
  {
    UnsignedBody(c, file, timestamp, folder, publicId) + AuthFields(c, signature)
  }

  /** The signature the upload computes when a secret is set. */
  function UploadSignature(c: Config, timestamp: int, folder: Scalar, publicId: Scalar, sha1: string -> string): string {
    if Set(c.apiSecret) then SignParams(ParamKeys, Params(timestamp, folder, publicId), c.apiSecret.value, sha1) else ""
  }

  function UploadUrl(cloudName: string): string {
    "https://api.cloudinary.com/v1_1/" + cloudName + "/image/upload"
  }

  /** What `uploadToCloudinary(file, { folder, publicId })` posts and returns or throws. */
  function UploadAttempt(c: Config, file: Scalar, folder: Scalar, publicId: Scalar, nowMs: int,
                         sha1: string -> string, post: FormPost -> Response): Attempt
  {
    if ConfigError(c).Some? then Attempt(None, Failure(UploadError(ConfigError(c).value, None)))
    else if !(file.Str? && file.s != "") then Attempt(None, Failure(UploadError(InvalidFile, None)))
    else
      var request := UploadRequest(c, file.s, Timestamp(nowMs), FolderOf(folder), publicId, sha1);
      Answer(request, post(request))
  }

  /** The form posted to the account's upload endpoint. */
  function UploadRequest(c: Config, file: string, timestamp: int, folder: Scalar, publicId: Scalar, sha1: string -> string): FormPost
    requires ConfigError(c).None?
  {
    FormPost(UploadUrl(c.cloudName.value), FormBody(c, file, timestamp, folder, publicId, UploadSignature(c, timestamp, folder, publicId, sha1)))
  }

  /** A response that is not ok throws with its status; an ok one is mapped to the upload's result. */
  function Answer(request: FormPost, response: Response): Attempt {
    if !response.ok then
      Attempt(Some(request), Failure(UploadError("Cloudinary upload failed (" + NatText(response.status) + "): " + response.text,
                                                 Some(response.status))))
    else
      var data := response.data;
      Attempt(Some(request), Success(Uploaded(Or(data.secureUrl, data.url), data.publicId, data.version, data.resourceType)))
  }

  /** `if (value) body.append(name, value)` */
  method AppendIfTruthy(body: seq<(Field, string)>, name: Field, value: Scalar) returns (r: seq<(Field, string)>)
    ensures r == body + OptionalField(name, value)
  {
    r := body;
    if Truthy(value) {
      r := r + [(name, Text(value))];
    }
  }

  /** The successive `body.append` calls of the upload. */
  method AppendFields(c: Config, file: string, timestamp: int, folder: Scalar, publicId: Scalar, sha1: string -> string)
    returns (body: seq<(Field, string)>)
    requires c.apiKey.Some?
    ensures body == FormBody(c, file, timestamp, folder, publicId, UploadSignature(c, timestamp, folder, publicId, sha1))
  {
    body := [];
    body := body + [(FileField, file)];
    body := body + [(ApiKeyField, c.apiKey.value)];
    body := body + [(TimestampField, IntText(timestamp))];
    body := AppendIfTruthy(body, FolderField, folder);
    body := AppendIfTruthy(body, PublicIdField, publicId);
    body := body + [(OverwriteField, "true")];
    ghost var unsigned := body;
    assert unsigned == UnsignedBody(c, file, timestamp, folder, publicId);
    if Set(c.apiSecret) {
      var signature := SignParams(ParamKeys, Params(timestamp, folder, publicId), c.apiSecret.value, sha1);
      body := body + [(SignatureField, signature)];
    } else if Set(c.uploadPreset) {
      body := body + [(PresetField, c.uploadPreset.value)];
    }
    assert body == unsigned + AuthFields(c, UploadSignature(c, timestamp, folder, publicId, sha1));
  }

  /** `uploadToCloudinary`: check, build the form by successive appends, post it, map the reply. */
  method Upload(c: Config, file: Scalar, folder: Scalar, publicId: Scalar, nowMs: int,
                sha1: string -> string, post: FormPost -> Response) returns (a: Attempt)
    ensures a == UploadAttempt(c, file, folder, publicId, nowMs, sha1, post)
  {
    var configError := ConfigError(c);
    if configError.Some? {
      return Attempt(None, Failure(UploadError(configError.value, None)));
    }
    if !(file.Str? && file.s != "") {
      return Attempt(None, Failure(UploadError(InvalidFile, None)));
    }
    a := PostForm(c, file.s, Timestamp(nowMs), FolderOf(folder), publicId, sha1, post);
  }

  /** Build the form, post it, and throw on a refused upload or map the accepted one. */
  method PostForm(c: Config, file: string, timestamp: int, folder: Scalar, publicId: Scalar,
                  sha1: string -> string, post: FormPost -> Response) returns (a: Attempt)
    requires ConfigError(c).None?
    ensures a == Answer(UploadRequest(c, file, timestamp, folder, publicId, sha1), post(UploadRequest(c, file, timestamp, folder, publicId, sha1)))
  {
    var body := AppendFields(c, file, timestamp, folder, publicId, sha1);
    var request := FormPost(UploadUrl(c.cloudName.value), body);
    var response := post(request);
    if !response.ok {
      var message := "Cloudinary upload failed (" + NatText(response.status) + "): " + response.text;
      return Attempt(Some(request), Failure(UploadError(message, Some(response.status))));
    }
    var data := response.data;
    return Attempt(Some(request), Success(Uploaded(Or(data.secureUrl, data.url), data.publicId, data.version, data.resourceType)));
  }

  /**
   * The configuration is checked before the file: a configuration error is
   * thrown whatever the file, and then nothing is posted.
   */
  lemma ConfigCheckedFirst(c: Config, file: Scalar, folder: Scalar, publicId: Scalar, nowMs: int,
                           sha1: string -> string, post: FormPost -> Response)
    requires ConfigError(c).Some?
    ensures UploadAttempt(c, file, folder, publicId, nowMs, sha1, post) ==
      Attempt(None, Failure(UploadError(ConfigError(c).value, None)))
  {
  }

  /** Nothing is posted exactly when the configuration or the file is refused. */
  lemma PostedIff(c: Config, file: Scalar, folder: Scalar, publicId: Scalar, nowMs: int,
                  sha1: string -> string, post: FormPost -> Response)
    ensures UploadAttempt(c, file, folder, publicId, nowMs, sha1, post).request.None? <==>
      ConfigError(c).Some? || !(file.Str? && file.s != "")
    ensures ConfigError(c).None? && !(file.Str? && file.s != "") ==>
      UploadAttempt(c, file, folder, publicId, nowMs, sha1, post).result == Failure(UploadError(InvalidFile, None))
  {
  }

  /** The fields before the authentication field are neither a signature nor a preset. */
  lemma UnsignedFields(c: Config, file: string, timestamp: int, folder: Scalar, publicId: Scalar)
    requires c.apiKey.Some?
    ensures Absent(UnsignedBody(c, file, timestamp, folder, publicId), SignatureField)
    ensures Absent(UnsignedBody(c, file, timestamp, folder, publicId), PresetField)
  {
  }

  /**
   * With a secret the form ends with the signature and carries no preset;
   * with only a preset it ends with the preset and carries no signature.
   */
  lemma SignatureOrPreset(c: Config, file: string, timestamp: int, folder: Scalar, publicId: Scalar, signature: string)
    requires ConfigError(c).None?
    ensures var body := FormBody(c, file, timestamp, folder, publicId, signature);
      var unsigned := UnsignedBody(c, file, timestamp, folder, publicId);
      && (Set(c.apiSecret) ==> body == unsigned + [(SignatureField, signature)] && Absent(body, PresetField))
      && (!Set(c.apiSecret) ==> body == unsigned + [(PresetField, c.uploadPreset.value)] && Absent(body, SignatureField))
  {
    UnsignedFields(c, file, timestamp, folder, publicId);
  }

  /**
   * A signed upload posts the hex SHA-1 of the string-to-sign of
   * `{ timestamp, folder, public_id, overwrite: true }` followed by the secret.
   */
  lemma UploadSignsParams(c: Config, file: Scalar, folder: Scalar, publicId: Scalar, nowMs: int,
                          sha1: string -> string, post: FormPost -> Response)
    requires UploadAttempt(c, file, folder, publicId, nowMs, sha1, post).request.Some? && Set(c.apiSecret)
    ensures var body := UploadAttempt(c, file, folder, publicId, nowMs, sha1, post).request.value.body;
      var params := Params(Timestamp(nowMs), FolderOf(folder), publicId);
      && body == UnsignedBody(c, file.s, Timestamp(nowMs), FolderOf(folder), publicId) +
                 [(SignatureField, sha1(ToSign(ParamKeys, params) + c.apiSecret.value))]
      && Absent(body, PresetField)
  {
    var ts := Timestamp(nowMs);
    SignatureOrPreset(c, file.s, ts, FolderOf(folder), publicId, UploadSignature(c, ts, FolderOf(folder), publicId, sha1));
  }

  /** The form begins with the file, the API key and the timestamp in seconds. */
  lemma FormStartsWithFile(c: Config, file: string, timestamp: int, folder: Scalar, publicId: Scalar, signature: string)
    requires c.apiKey.Some?
    ensures var body := FormBody(c, file, timestamp, folder, publicId, signature);
      |body| >= 4 && body[0] == (FileField, file) && body[1] == (ApiKeyField, c.apiKey.value) && body[2] == (TimestampField, IntText(timestamp))
  {
  }

  /**
   * A refused upload throws an error that carries the HTTP status; an
   * accepted one returns `secure_url` when it is truthy, else `url`.
   */
  lemma ResponseMapping(c: Config, file: Scalar, folder: Scalar, publicId: Scalar, nowMs: int,
                        sha1: string -> string, post: FormPost -> Response)
    requires UploadAttempt(c, file, folder, publicId, nowMs, sha1, post).request.Some?
    ensures var a := UploadAttempt(c, file, folder, publicId, nowMs, sha1, post);
      var response := post(a.request.value);
      && (a.result.Failure? <==> !response.ok)
      && (!response.ok ==> a.result.error.status == Some(response.status))
      && (response.ok && Truthy(response.data.secureUrl) ==> a.result.value.url == response.data.secureUrl)
      && (response.ok && !Truthy(response.data.secureUrl) ==> a.result.value.url == response.data.url)
  {
  }
}
