/**
 * `src/lib/config.ts`: the EmailJS credentials, read from and written to the
 * browser's `localStorage` entry `emailjs-config`.
 *
 * The entry is modelled by what `JSON.parse` makes of its text: absent, the
 * empty string (which `if (stored)` skips), text that does not parse, a JSON
 * value that is not an object (reading a field of `null` throws, which the
 * `catch` swallows), or an object whose three fields may be missing.
 */
module EmailConfig {
  import opened Base

  datatype Config = Config(publicKey: string, serviceId: string, templateId: string)

  /** What `localStorage.getItem('emailjs-config')` holds, as parsed. */
  datatype StoredItem =
    | EmptyText
    | Unparsable
    | NonObject
    | JsonObject(publicKey: Option<string>, serviceId: Option<string>, templateId: Option<string>)

  const PublicKeyPlaceholder := "YOUR_EMAILJS_PUBLIC_KEY"
  const ServiceIdPlaceholder := "YOUR_EMAILJS_SERVICE_ID"
  const TemplateIdPlaceholder := "YOUR_EMAILJS_TEMPLATE_ID"

  /** The configuration returned when nothing usable is stored. */
  const Fallback := Config(PublicKeyPlaceholder, ServiceIdPlaceholder, TemplateIdPlaceholder)

  /** `validateEmailJSConfig`. */
  predicate Validate(c: Config) {
    c.publicKey != "" && c.serviceId != "" && c.templateId != ""
    && c.publicKey != PublicKeyPlaceholder
    && c.serviceId != ServiceIdPlaceholder
    && c.templateId != TemplateIdPlaceholder
  }

  /** The stored object has all three fields, each a non-empty string. */
  predicate Usable(item: Option<StoredItem>) {
    && item.Some? && item.value.JsonObject?
    && Truthy(item.value.publicKey) && Truthy(item.value.serviceId) && Truthy(item.value.templateId)
  }

  /** What `JSON.stringify(config)` stores, as it parses back. */
  function StoredOf(c: Config): (item: StoredItem)
    ensures item.JsonObject?
  {
    JsonObject(Some(c.publicKey), Some(c.serviceId), Some(c.templateId))
  }

  /** `getEmailJSConfig` over the storage entry. */
  function ConfigFrom(item: Option<StoredItem>): Config {
    if Usable(item) then
      Config(item.value.publicKey.value, item.value.serviceId.value, item.value.templateId.value)
    else Fallback
  }

  /** The placeholders never pass validation. */
  lemma FallbackNeverValidates()
    ensures !Validate(Fallback)
  {
  }

  /** A configuration read from storage validates exactly when the stored
      object is usable and none of its fields is the placeholder. */
  lemma ReadValidatesIff(item: Option<StoredItem>)
    ensures Validate(ConfigFrom(item)) <==>
      Usable(item)
      && item.value.publicKey.value != PublicKeyPlaceholder
      && item.value.serviceId.value != ServiceIdPlaceholder
      && item.value.templateId.value != TemplateIdPlaceholder
  {
    FallbackNeverValidates();
  }

  /** Storing a configuration and reading it back gives it again. */
  lemma StoreRoundTrip(c: Config)
    requires Validate(c)
    ensures ConfigFrom(Some(StoredOf(c))) == c
  {
  }

  /** The `localStorage` entry. */
  class ConfigStore {
    var item: Option<StoredItem>

    constructor (initial: Option<StoredItem>)
      ensures item == initial
    {
      item := initial;
    }

    /** `getEmailJSConfig`: reads the entry and never writes it. */
    function Get(): (c: Config)
      reads this
      ensures c == ConfigFrom(item)
      ensures Validate(c) ==> Usable(item)
    {
      FallbackNeverValidates();
      ConfigFrom(item)
    }

    /** `setEmailJSConfig`: writes only a configuration that validates and
        otherwise throws, leaving the entry as it was. */
    method Set(c: Config) returns (threw: bool)
      modifies this
      ensures threw <==> !Validate(c)
      ensures !threw ==> item == Some(StoredOf(c)) && Get() == c
      ensures threw ==> item == old(item)
    {
      if Validate(c) {
        item := Some(StoredOf(c));
        StoreRoundTrip(c);
        threw := false;
      } else {
        threw := true;
      }
    }
  }

  /** Setting the placeholders throws; setting real credentials makes `Get`
      return them. */
  method SetThenGetScenario()
  {
    var store := new ConfigStore(None);
    assert store.Get() == Fallback;
    var threw := store.Set(Fallback);
    assert threw && store.item == None;
    var c := Config("pk", "svc", "tpl");
    threw := store.Set(c);
    assert !threw && store.Get() == c;
  }
}
