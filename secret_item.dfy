/**
  `SecretItem`, the concrete secret the vault stores: its type, derived category
  and icon, validation, search text, and the protocol's settable fields.
 */
module Secrets {
  import opened Wrappers
  import opened Uuids
  import opened SecretCategories

  datatype SecretType = ApiKeyType | TokenType | CredentialType | SshKeyType | GenericType

  /** `rawValue` of a `SecretType`, its encoded form. */
  function TypeRawValue(t: SecretType): (r: string)
    ensures r != ""
  {
    match t
    case ApiKeyType => "API Key"
    case TokenType => "Token"
    case CredentialType => "Credential"
    case SshKeyType => "SSH Key"
    case GenericType => "Generic"
  }

  /** No two secret types share a raw value, so the encoded type identifies the type. */
  lemma TypeRawValuesDistinct(s: SecretType, t: SecretType)
    ensures TypeRawValue(s) == TypeRawValue(t) ==> s == t
  {
  }

  /** Timestamps are whole seconds. */
  type Timestamp = int

  datatype SecretItem = SecretItem(
    id: Uuid,
    title: string,
    secretType: SecretType,
    encryptedValue: Bytes,
    notes: Option<string>,
    createdAt: Timestamp,
    modifiedAt: Timestamp,
    tags: set<string>,
    isFavorite: bool)

  /**
    `SecretItem.init`. The defaults `UUID()` and `Date()` are generated, so the
    caller supplies `id`, `createdAt` and `modifiedAt`; the other defaults stay.
   */
  function NewSecretItem(
    id: Uuid,
    title: string,
    secretType: SecretType,
    encryptedValue: Bytes,
    notes: Option<string> := None,
    tags: set<string> := {},
    isFavorite: bool := false,
    createdAt: Timestamp,
    modifiedAt: Timestamp): (item: SecretItem)
    ensures item.id == id && item.title == title && item.secretType == secretType
    ensures item.encryptedValue == encryptedValue && item.notes == notes && item.tags == tags
    ensures item.isFavorite == isFavorite && item.createdAt == createdAt && item.modifiedAt == modifiedAt
  {
    SecretItem(id, title, secretType, encryptedValue, notes, createdAt, modifiedAt, tags, isFavorite)
  }

  /** The defaults of `init`: no notes, no tags, not a favourite. */
  lemma NewSecretItemDefaults(id: Uuid, title: string, t: SecretType, v: Bytes, c: Timestamp, m: Timestamp)
    ensures var item := NewSecretItem(id, title, t, v, createdAt := c, modifiedAt := m);
      item.notes == None && item.tags == {} && !item.isFavorite
  {
  }

  /** `category`. */
  function Category(t: SecretType): (c: SecretCategory)
    ensures c in {ApiKey, Token, Password, SshKey, Custom}
  {
    match t
    case ApiKeyType => ApiKey
    case TokenType => Token
    case CredentialType => Password
    case SshKeyType => SshKey
    case GenericType => Custom
  }

  /** Distinct secret types never share a category. */
  lemma CategoryInjective(s: SecretType, t: SecretType)
    ensures Category(s) == Category(t) ==> s == t
  {
  }

  /** No secret item is ever a bank account or a credit card. */
  lemma NoBankingCategory(t: SecretType)
    ensures Category(t) != BankAccount && Category(t) != CreditCard
  {
  }

  /** `iconName`: the icon of the item's category. */
  function IconName(item: SecretItem): (name: string)
    ensures name == Icon(Category(item.secretType))
  {
    Icon(Category(item.secretType))
  }

  /** Items of different secret types show different icons. */
  lemma IconNameIdentifiesType(a: SecretItem, b: SecretItem)
    ensures IconName(a) == IconName(b) ==> a.secretType == b.secretType
  {
    IconsDistinct(Category(a.secretType), Category(b.secretType));
    CategoryInjective(a.secretType, b.secretType);
  }

  datatype SecretError = InvalidTitle

  /** `validate()`: only the title is checked. */
  function Validate(item: SecretItem): (r: Outcome<SecretError>)
    ensures r.Fail? <==> item.title == ""
    ensures r.Fail? ==> r.error == InvalidTitle
  {
    if item.title == "" then Fail(InvalidTitle) else Pass
  }

  /** `notes ?? ""`. */
  function NotesText(item: SecretItem): string {
    item.notes.GetOr("")
  }

  /** `searchableText()`: the title, one space, then the notes (or nothing). */
  function SearchableText(item: SecretItem): (text: string)
    ensures |text| == |item.title| + 1 + |NotesText(item)|
    ensures text[..|item.title|] == item.title
    ensures text[|item.title|] == ' '
    ensures text[|item.title| + 1..] == NotesText(item)
  {
    item.title + " " + NotesText(item)
  }

  /**
    An assignment to one of the properties `SecretItemProtocol` declares
    `{ get set }`; `id`, `category` and `createdAt` are `{ get }` only.
   */
  datatype FieldUpdate =
    | SetTitle(title: string)
    | SetNotes(notes: Option<string>)
    | SetTags(tags: set<string>)
    | SetModifiedAt(modifiedAt: Timestamp)
    | SetFavorite(isFavorite: bool)

  /** Applies a protocol setter: exactly the named field changes. */
  function ApplyUpdate(item: SecretItem, u: FieldUpdate): (r: SecretItem)
    ensures r.id == item.id && r.createdAt == item.createdAt
    ensures Category(r.secretType) == Category(item.secretType)
    ensures r.encryptedValue == item.encryptedValue
    ensures r.title == (if u.SetTitle? then u.title else item.title)
    ensures r.notes == (if u.SetNotes? then u.notes else item.notes)
    ensures r.tags == (if u.SetTags? then u.tags else item.tags)
    ensures r.modifiedAt == (if u.SetModifiedAt? then u.modifiedAt else item.modifiedAt)
    ensures r.isFavorite == (if u.SetFavorite? then u.isFavorite else item.isFavorite)
  {
    match u
    case SetTitle(t) => item.(title := t)
    case SetNotes(n) => item.(notes := n)
    case SetTags(t) => item.(tags := t)
    case SetModifiedAt(m) => item.(modifiedAt := m)
    case SetFavorite(f) => item.(isFavorite := f)
  }

  /** Any sequence of protocol setter calls keeps the identity, creation date and category. */
  function ApplyUpdates(item: SecretItem, us: seq<FieldUpdate>): (r: SecretItem)
    ensures r.id == item.id && r.createdAt == item.createdAt
    ensures Category(r.secretType) == Category(item.secretType)
    decreases |us|
  {
    if |us| == 0 then item else ApplyUpdates(ApplyUpdate(item, us[0]), us[1..])
  }
}
