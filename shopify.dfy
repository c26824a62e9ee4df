/**
 * The Shopify integration page: a connect form whose fields are kept in a
 * record, and a flag saying whether the store counts as integrated.
 */
module Shopify {

  /** The `formData` record: field name to text; a missing key reads as `undefined`. */
  type FormData = map<string, string>

  const InitialForm: FormData := map["email" := "", "storeName" := "", "shopDomain" := ""]

  /** The record `handleDisconnect` installs; it has no `shopDomain` key. */
  const DisconnectedForm: FormData := map["email" := "", "storeName" := ""]

  /** `formData[key]` is truthy: present and not the empty string. */
  predicate Filled(form: FormData, key: string) {
    key in form && form[key] != ""
  }

  /** The guard of `handleSubmit`: `formData.email && formData.storeName`. */
  predicate CanIntegrate(form: FormData) {
    Filled(form, "email") && Filled(form, "storeName")
  }

  /** After a change of field `name`, only that field's truthiness can differ. */
  lemma FilledAfterChange(form: FormData, name: string, value: string, key: string)
    ensures Filled(form[name := value], key) <==> (if key == name then value != "" else Filled(form, key))
  {
  }

  /** Neither the initial nor the disconnected form passes the submit guard. */
  lemma EmptyFormsCannotIntegrate()
    ensures !CanIntegrate(InitialForm)
    ensures !CanIntegrate(DisconnectedForm)
    ensures "shopDomain" in InitialForm && "shopDomain" !in DisconnectedForm
  {
  }

  /** The page's `isIntegrated` and `formData` state. */
  class ShopifyConnection {
    var isIntegrated: bool
    var formData: FormData

    /** Not integrated, every field empty. */
    constructor()
      ensures !isIntegrated && formData == InitialForm
    {
      isIntegrated := false;
      formData := InitialForm;
    }

    /** `handleInputChange`: sets the named field and keeps every other key. */
    method HandleInputChange(name: string, value: string)
      modifies this
      ensures formData == old(formData)[name := value]
      ensures name in formData && formData[name] == value
      ensures forall k :: k in old(formData) && k != name ==> k in formData && formData[k] == old(formData)[k]
      ensures formData.Keys == old(formData).Keys + {name}
      ensures isIntegrated == old(isIntegrated)
    {
      formData := formData[name := value];
    }

    /**
     * `handleSubmit`: integrates when email and store name are both filled;
     * otherwise nothing changes. It never disconnects.
     */
    method HandleSubmit()
      modifies this
      ensures isIntegrated <==> old(isIntegrated) || CanIntegrate(old(formData))
      ensures old(isIntegrated) ==> isIntegrated
      ensures formData == old(formData)
    {
      if CanIntegrate(formData) {
        isIntegrated := true;
      }
    }

    /** `handleDisconnect`: not integrated, and the two-field empty form. */
    method HandleDisconnect()
      modifies this
      ensures !isIntegrated && formData == DisconnectedForm
      ensures "shopDomain" !in formData
    {
      isIntegrated := false;
      formData := DisconnectedForm;
    }
  }
}
