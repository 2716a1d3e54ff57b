/**
  `SecretCategory` of the secret-item protocol: its raw values, its icons and
  `allCases`.
 */
module SecretCategories {
  import opened Wrappers

  datatype SecretCategory =
    | ApiKey
    | BankAccount
    | CreditCard
    | SshKey
    | Password
    | Token
    | Certificate
    | License
    | Note
    | Project
    | Custom

  /**
    `rawValue`, which is also the category's encoded form. `RawValueRoundTrip`
    shows that `init(rawValue:)` reads it back.
   */
  function RawValue(c: SecretCategory): (r: string)
    ensures r != ""
  {
    match c
    case ApiKey => "API Key"
    case BankAccount => "Bank Account"
    case CreditCard => "Credit Card"
    case SshKey => "SSH Key"
    case Password => "Password"
    case Token => "Token"
    case Certificate => "Certificate"
    case License => "License"
    case Note => "Secure Note"
    case Project => "Project"
    case Custom => "Custom"
  }

  /** `SecretCategory(rawValue:)`: the category whose raw value is `s`, if any. */
  function FromRawValue(s: string): (r: Option<SecretCategory>)
    ensures r.Some? ==> RawValue(r.value) == s
  {
    if s == "API Key" then Some(ApiKey)
    else if s == "Bank Account" then Some(BankAccount)
    else if s == "Credit Card" then Some(CreditCard)
    else if s == "SSH Key" then Some(SshKey)
    else if s == "Password" then Some(Password)
    else if s == "Token" then Some(Token)
    else if s == "Certificate" then Some(Certificate)
    else if s == "License" then Some(License)
    else if s == "Secure Note" then Some(Note)
    else if s == "Project" then Some(Project)
    else if s == "Custom" then Some(Custom)
    else None
  }

  /** Decoding a raw value gives back its category, so raw values are pairwise distinct. */
  lemma RawValueRoundTrip(c: SecretCategory)
    ensures FromRawValue(RawValue(c)) == Some(c)
  {
  }

  lemma RawValuesDistinct(c: SecretCategory, d: SecretCategory)
    ensures RawValue(c) == RawValue(d) ==> c == d
  {
    RawValueRoundTrip(c);
    RawValueRoundTrip(d);
  }

  /** `icon`: the SF Symbol shown for the category; `IconsDistinct` shows no two share one. */
  function Icon(c: SecretCategory): (r: string)
    ensures r != ""
  {
    match c
    case ApiKey => "key.fill"
    case BankAccount => "building.columns.fill"
    case CreditCard => "creditcard.fill"
    case SshKey => "terminal.fill"
    case Password => "lock.fill"
    case Token => "ticket.fill"
    case Certificate => "doc.badge.gearshape.fill"
    case License => "doc.text.fill"
    case Note => "note.text"
    case Project => "folder.fill"
    case Custom => "puzzlepiece.extension.fill"
  }

  /** No two categories share an icon. */
  lemma IconsDistinct(c: SecretCategory, d: SecretCategory)
    ensures Icon(c) == Icon(d) ==> c == d
  {
  }

  /** `allCases`, in declaration order. */
  const AllCases: seq<SecretCategory> :=
    [ApiKey, BankAccount, CreditCard, SshKey, Password, Token, Certificate, License, Note, Project, Custom]

  /** `allCases` lists every category exactly once. */
  lemma AllCasesComplete(c: SecretCategory)
    ensures c in AllCases
    ensures |AllCases| == 11
    ensures forall i, j :: 0 <= i < j < |AllCases| ==> AllCases[i] != AllCases[j]
  {
  }
}
