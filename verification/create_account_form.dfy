/**
 * createAccountForm: a three-field Account form that creates an Account on the
 * platform and, when that succeeds, publishes the new account on the
 * account-created message channel and clears the form.
 */
module CreateAccountForm {
  import opened Records

  /** The fields passed to `createRecord`: the three values under the Account field names. */
  function CreateFields(name: string, industry: string, phone: string): (f: Record)
    ensures f.Keys == AccountFormKeys
    ensures f[AccountNameField] == Str(name) && f[IndustryField] == Str(industry) && f[PhoneField] == Str(phone)
  {
    map[AccountNameField := Str(name), IndustryField := Str(industry), PhoneField := Str(phone)]
  }

  /** The payload published after a successful create: the new account's id and the three values. */
  function AccountPayload(id: string, name: string, industry: string, phone: string): (p: Record)
    ensures p.Keys == AccountKeys
    ensures p[IdField] == Str(id)
  {
    map[IdField := Str(id), AccountNameField := Str(name), IndustryField := Str(industry), PhoneField := Str(phone)]
  }

  /** The published payload is exactly the created fields plus the id the platform returned. */
  lemma PayloadIsCreatedRecord(id: string, name: string, industry: string, phone: string)
    ensures AccountPayload(id, name, industry, phone) == CreateFields(name, industry, phone)[IdField := Str(id)]
  {
  }

  /** Round trip with accountDataTable: the record it builds from this payload is the payload itself. */
  lemma TableRecordOfPayload(id: string, name: string, industry: string, phone: string)
    ensures var p := AccountPayload(id, name, industry, phone);
            AccountRecord(p) == p
  {
    AccountRecordOfRow(AccountPayload(id, name, industry, phone));
  }

  class CreateAccountForm {
    var accountName: string
    var accountIndustry: string
    var accountPhone: string

    constructor ()
      ensures accountName == "" && accountIndustry == "" && accountPhone == ""
    {
      accountName, accountIndustry, accountPhone := "", "", "";
    }

    method HandleNameChange(value: string)
      modifies this
      ensures accountName == value
      ensures accountIndustry == old(accountIndustry) && accountPhone == old(accountPhone)
    {
      accountName := value;
    }

    method HandleIndustryChange(value: string)
      modifies this
      ensures accountIndustry == value
      ensures accountName == old(accountName) && accountPhone == old(accountPhone)
    {
      accountIndustry := value;
    }

    method HandlePhoneChange(value: string)
      modifies this
      ensures accountPhone == value
      ensures accountName == old(accountName) && accountIndustry == old(accountIndustry)
    {
      accountPhone := value;
    }

    /**
     * Creates the account (`createFields` is what is sent; `outcome` how the
     * platform answered). On success the payload with the new id is published
     * and the form is cleared; on failure nothing is published and the form
     * keeps its values.
     */
    method HandleCreateAccount(outcome: CreateOutcome) returns (createFields: Record, published: Option<Record>)
      modifies this
      ensures createFields == CreateFields(old(accountName), old(accountIndustry), old(accountPhone))
      ensures outcome.Created? ==>
        published == Some(AccountPayload(outcome.id, old(accountName), old(accountIndustry), old(accountPhone))) &&
        accountName == "" && accountIndustry == "" && accountPhone == ""
      ensures outcome.CreateFailed? ==>
        published.None? &&
        accountName == old(accountName) && accountIndustry == old(accountIndustry) && accountPhone == old(accountPhone)
    {
      createFields := CreateFields(accountName, accountIndustry, accountPhone);
      published := None;
      if outcome.Created? {
        published := Some(AccountPayload(outcome.id, accountName, accountIndustry, accountPhone));
        accountName := "";
        accountIndustry := "";
        accountPhone := "";
      }
    }
  }
}
