/** API-key authentication: the key table, the lookup of the `x-api-key`
    header in it, and the tenant a key acts for. */
module Auth {
  import opened Common

  /** The `tenant_id` entry of a key record: missing, present but `null`,
      or a string. */
  datatype TenantField = Absent | NullTenant | Tenant(id: string)

  datatype KeyRecord = KeyRecord(key: string, tenant: TenantField, permissions: seq<string>)

  /** The records of the key file in file order (`api_keys.values()`). */
  type KeyTable = seq<KeyRecord>

  /** The state of `api_keys.json`. */
  datatype KeyFile = NoKeyFile | KeyFile(records: KeyTable) | UnreadableKeyFile

  const MasterKey: string := "master_sk_1234567890"

  function Digit(i: nat): (d: string)
    requires i <= 9
    ensures |d| == 1
  {
    ["0123456789"[i]]
  }

  /** The default key of `tenant_<i>`. */
  function TenantKey(i: nat): string
    requires i <= 9
  {
    "tenant_" + Digit(i) + "_sk_" + Digit(i) + "0987654321"
  }

  function TenantName(i: nat): string
    requires i <= 9
  {
    "tenant_" + Digit(i)
  }

  /** The table written when no key file exists: the master key, which has
      admin rights and a null tenant, then one read/write key for each of
      `tenant_1` to `tenant_4`. */
  function DefaultKeys(): (t: KeyTable)
    ensures |t| == 5
    ensures t[0] == KeyRecord(MasterKey, NullTenant, ["admin"])
    ensures forall i :: 1 <= i < 5 ==> t[i] == KeyRecord(TenantKey(i), Tenant(TenantName(i)), ["read", "write"])
  {
    [KeyRecord(MasterKey, NullTenant, ["admin"])]
    + seq(4, i requires 0 <= i < 4 => KeyRecord(TenantKey(i + 1), Tenant(TenantName(i + 1)), ["read", "write"]))
  }

  /** `load_api_keys`: the defaults when there is no file (creating the
      file is not modelled), the file's records, or no record at all when
      reading the file fails. */
  function LoadKeys(file: KeyFile): (t: KeyTable)
    ensures file.NoKeyFile? ==> t == DefaultKeys()
    ensures file.KeyFile? ==> t == file.records
    ensures file.UnreadableKeyFile? ==> t == []
  {
    match file
    case NoKeyFile => DefaultKeys()
    case KeyFile(records) => records
    case UnreadableKeyFile => []
  }

  /** The position of the first record carrying `key`. */
  function FirstMatch(table: KeyTable, key: string): (r: Option<nat>)
    ensures r.None? <==> forall i :: 0 <= i < |table| ==> table[i].key != key
    ensures r.Some? ==> r.value < |table| && table[r.value].key == key
                        && forall j :: 0 <= j < r.value ==> table[j].key != key
  {
    if table == [] then None
    else if table[0].key == key then Some(0)
    else match FirstMatch(table[1..], key)
      case None => None
      case Some(i) => Some(i + 1)
  }

  const KeyRequired: HttpError := HttpError(401, Fixed("API key required"))
  const InvalidKey: HttpError := HttpError(401, Fixed("Invalid API key"))
  const NoTenant: HttpError := HttpError(403, Fixed("API key not associated with a tenant"))

  /** `verify_api_key`: a missing or empty header is refused before the
      table is read; otherwise the first record with that key is returned. */
  function VerifyKey(header: Option<string>, table: KeyTable): (r: Result<KeyRecord, HttpError>)
    ensures (header.None? || header == Some("")) <==> r == Err(KeyRequired)
    ensures r.Ok? ==> header.Some? && r.value.key == header.value
                      && exists i :: 0 <= i < |table| && table[i] == r.value
                                     && forall j :: 0 <= j < i ==> table[j].key != header.value
    ensures r == Err(InvalidKey) <==> header.Some? && header.value != ""
                                      && forall i :: 0 <= i < |table| ==> table[i].key != header.value
  {
    if header.None? || header.value == "" then Err(KeyRequired)
    else match FirstMatch(table, header.value)
      case None => Err(InvalidKey)
      case Some(i) => Ok(table[i])
  }

  /** `get_tenant_id`: an admin key acts for its `tenant_id` entry, or for
      "master" when it has none; `None` stands for a null entry. Any other
      key needs a non-empty tenant. */
  function TenantOf(k: KeyRecord): (r: Result<Option<string>, HttpError>)
    ensures "admin" in k.permissions ==> r.Ok?
    ensures "admin" in k.permissions && k.tenant.Absent? ==> r == Ok(Some("master"))
    ensures r == Ok(None) <==> "admin" in k.permissions && k.tenant.NullTenant?
    ensures "admin" !in k.permissions ==>
              (r == Err(NoTenant) <==> !k.tenant.Tenant? || k.tenant.id == "")
    ensures r.Ok? && r.value.Some? && k.tenant.Tenant? ==> r.value.value == k.tenant.id
    ensures r.Ok? && "admin" !in k.permissions ==> k.tenant.Tenant? && r == Ok(Some(k.tenant.id)) && k.tenant.id != ""
  {
    if "admin" in k.permissions then
      match k.tenant
      case Absent => Ok(Some("master"))
      case NullTenant => Ok(None)
      case Tenant(id) => Ok(Some(id))
    else if !k.tenant.Tenant? || k.tenant.id == "" then Err(NoTenant)
    else Ok(Some(k.tenant.id))
  }

  /** The tenant a request acts for, from its header and the key file. */
  function Authenticate(header: Option<string>, file: KeyFile): (r: Result<Option<string>, HttpError>)
    ensures header.None? || header == Some("") ==> r == Err(KeyRequired)
    ensures r == Err(InvalidKey) <==>
              header.Some? && header.value != "" && FirstMatch(LoadKeys(file), header.value).None?
    ensures header.Some? && header.value != "" && FirstMatch(LoadKeys(file), header.value).Some? ==>
              r == TenantOf(LoadKeys(file)[FirstMatch(LoadKeys(file), header.value).value])
    ensures r.Err? ==> r.error == KeyRequired || r.error == InvalidKey || r.error == NoTenant
  {
    match VerifyKey(header, LoadKeys(file))
    case Err(e) => Err(e)
    case Ok(k) => TenantOf(k)
  }

  /** With the default table the master key acts for no tenant at all:
      `None`, not "master". */
  lemma MasterActsForNone()
    ensures Authenticate(Some(MasterKey), NoKeyFile) == Ok(None)
  {
    var t := DefaultKeys();
    FirstMatchAt(t, MasterKey, 0);
    assert VerifyKey(Some(MasterKey), t) == Ok(t[0]);
  }

  /** With the default table the key of `tenant_<i>` acts for `tenant_<i>`. */
  lemma DefaultTenant(i: nat)
    requires 1 <= i <= 4
    ensures Authenticate(Some(TenantKey(i)), NoKeyFile) == Ok(Some(TenantName(i)))
  {
    var t := DefaultKeys();
    forall j | 0 <= j < i ensures t[j].key != TenantKey(i) {
      DefaultKeysDiffer(i, j);
    }
    FirstMatchAt(t, TenantKey(i), i);
    var k := t[i];
    assert k == KeyRecord(TenantKey(i), Tenant(TenantName(i)), ["read", "write"]);
    assert "admin" !in k.permissions && TenantName(i) != "";
    assert TenantOf(k) == Ok(Some(TenantName(i)));
  }

  /** No default key equals the key of `tenant_<i>` but its own. */
  lemma DefaultKeysDiffer(i: nat, j: nat)
    requires 1 <= i <= 4 && j < 5 && j != i
    ensures DefaultKeys()[j].key != TenantKey(i)
  {
    var k := TenantKey(i);
    assert k[7] == Digit(i)[0];
    if j == 0 {
      assert |MasterKey| != |k|;
    } else {
      assert DefaultKeys()[j].key[7] == Digit(j)[0];
    }
  }

  /** The first match is at `i` when the key is there and nowhere before. */
  lemma FirstMatchAt(table: KeyTable, key: string, i: nat)
    requires i < |table| && table[i].key == key
    requires forall j :: 0 <= j < i ==> table[j].key != key
    ensures FirstMatch(table, key) == Some(i)
  {
    var r := FirstMatch(table, key);
    assert r.Some?;
    assert !(r.value < i) && !(r.value > i);
  }

  /** An unreadable key file locks every key out. */
  lemma UnreadableLocksOut(header: Option<string>)
    ensures Authenticate(header, UnreadableKeyFile).Err?
    ensures header.Some? && header.value != "" ==> Authenticate(header, UnreadableKeyFile) == Err(InvalidKey)
  {
  }
}
