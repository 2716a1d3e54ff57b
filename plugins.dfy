/**
  The plugin system: the `PluginManager` registry, the action dispatch of the
  three example plugins (banking validation, export, backup), and the
  `TemplateManager` registry.

  A plugin is a record of its `SecretPlugin` properties together with which of
  the example behaviours its `performAction` has. The untyped `data` payload of
  a `PluginResult` is modelled only as far as the example plugins fill it.
 */
module Plugins {
  import opened Wrappers
  import opened Uuids
  import opened SecretCategories

  datatype PluginAction = Validate | Transform | Sync | Backup | CustomAction(name: string)

  datatype PluginError =
    | PluginNotFound
    | ActionNotSupported
    | ExecutionFailed(reason: string)
    | InvalidConfiguration

  /** The entries an example plugin puts in `PluginResult.data`. */
  datatype Payload =
    | IssuesPayload(issues: seq<string>)
    | ExportPayload
    | BackupPayload(secretId: string)

  datatype PluginResult = PluginResult(success: bool, message: Option<string>, data: Payload)

  /** What a plugin reads of the secret it acts on. */
  datatype PluginSubject = PluginSubject(id: Uuid, title: string, category: SecretCategory, exportable: bool)

  datatype PluginKind = BankingValidationKind | ExportKind | BackupKind

  datatype Plugin = Plugin(
    id: string,
    name: string,
    version: string,
    supportedCategories: seq<SecretCategory>,
    kind: PluginKind)

  const BankingValidationPlugin: Plugin :=
    Plugin("com.silentkey.banking.validation", "Banking Validation", "1.0.0", [BankAccount, CreditCard], BankingValidationKind)
  const ExportPlugin: Plugin :=
    Plugin("com.silentkey.export", "Multi-Format Export", "1.0.0", AllCases, ExportKind)
  const BackupPlugin: Plugin :=
    Plugin("com.silentkey.backup", "Automatic Backup", "1.0.0", AllCases, BackupKind)

  /** Banking validation covers bank accounts and credit cards only; export and backup cover every category. */
  lemma SupportedCategories(c: SecretCategory)
    ensures c in BankingValidationPlugin.supportedCategories <==> c == BankAccount || c == CreditCard
    ensures c in ExportPlugin.supportedCategories && c in BackupPlugin.supportedCategories
  {
    AllCasesComplete(c);
  }

  /**
    The three example plugins have distinct ids, each accepts a different action,
    and registering all three keeps all three.
   */
  lemma ExamplePlugins()
    ensures BankingValidationPlugin.id != ExportPlugin.id && ExportPlugin.id != BackupPlugin.id
    ensures BankingValidationPlugin.id != BackupPlugin.id
    ensures BankingValidationPlugin.version == ExportPlugin.version == BackupPlugin.version == "1.0.0"
    ensures (map[][BankingValidationPlugin.id := BankingValidationPlugin][ExportPlugin.id := ExportPlugin]
      [BackupPlugin.id := BackupPlugin]).Values == {BankingValidationPlugin, ExportPlugin, BackupPlugin}
  {
    var m := map[][BankingValidationPlugin.id := BankingValidationPlugin][ExportPlugin.id := ExportPlugin]
      [BackupPlugin.id := BackupPlugin];
    assert BankingValidationPlugin.id[14] == 'b' && ExportPlugin.id[14] == 'e' && BackupPlugin.id[14] == 'b';
    assert BankingValidationPlugin.id[16] == 'n' && BackupPlugin.id[16] == 'c';
    assert m[BankingValidationPlugin.id] == BankingValidationPlugin;
    assert m[ExportPlugin.id] == ExportPlugin;
    assert m[BackupPlugin.id] == BackupPlugin;
  }

  const TitleRequired: string := "Title is required"
  const AccountNameTooShort: string := "Account name too short"

  /**
    `validateBankingSecret`: an empty title is one issue; a bank account whose
    title has fewer than 3 characters is another. It passes iff there is none.
   */
  function ValidateBankingSecret(secret: PluginSubject): (r: PluginResult)
    ensures r.data.IssuesPayload?
    ensures TitleRequired in r.data.issues <==> secret.title == ""
    ensures AccountNameTooShort in r.data.issues <==> secret.category == BankAccount && |secret.title| < 3
    ensures forall i :: 0 <= i < |r.data.issues| ==> r.data.issues[i] in {TitleRequired, AccountNameTooShort}
    ensures r.success <==> |r.data.issues| == 0
    ensures r.message == Some(if r.success then "Validation passed" else "Validation failed")
  {
    var issues := (if secret.title == "" then [TitleRequired] else []) +
      (if secret.category == BankAccount && |secret.title| < 3 then [AccountNameTooShort] else []);
    PluginResult(|issues| == 0, Some(if |issues| == 0 then "Validation passed" else "Validation failed"),
      IssuesPayload(issues))
  }

  /** A bank account with an empty title gets both issues, the title one first. */
  lemma EmptyBankAccountBothIssues(secret: PluginSubject)
    requires secret.title == "" && secret.category == BankAccount
    ensures ValidateBankingSecret(secret).data.issues == [TitleRequired, AccountNameTooShort]
    ensures !ValidateBankingSecret(secret).success
  {
  }

  /** Every category other than bank account only checks that the title is non-empty. */
  lemma OtherCategoriesCheckTitleOnly(secret: PluginSubject)
    requires secret.category != BankAccount
    ensures ValidateBankingSecret(secret).success <==> secret.title != ""
  {
  }

  /** The one action each example plugin accepts; no two accept the same one, and none accepts `sync` or a custom action. */
  function AcceptedAction(kind: PluginKind): (a: PluginAction)
    ensures a == Validate <==> kind == BankingValidationKind
    ensures a == Transform <==> kind == ExportKind
    ensures a == Backup <==> kind == BackupKind
    ensures a != Sync && !a.CustomAction?
  {
    match kind
    case BankingValidationKind => Validate
    case ExportKind => Transform
    case BackupKind => Backup
  }

  /**
    `performAction(_:on:)` of the example plugins. Export fails for a secret that
    is not `ExportableSecret`; backup records the secret's `uuidString`.
   */
  function PerformAction(p: Plugin, action: PluginAction, secret: PluginSubject): (r: Result<PluginResult, PluginError>)
    ensures action != AcceptedAction(p.kind) <==> r == Failure(ActionNotSupported)
    ensures p.kind.BankingValidationKind? && action == Validate ==> r == Success(ValidateBankingSecret(secret))
    ensures p.kind.ExportKind? && action == Transform ==>
      (r.Success? <==> secret.exportable) &&
      (r.Failure? ==> r.error == ExecutionFailed("Secret does not support export"))
    ensures p.kind.BackupKind? && action == Backup ==>
      r.Success? && r.value.success && r.value.data == BackupPayload(secret.id)
  {
    if action != AcceptedAction(p.kind) then Failure(ActionNotSupported)
    else
      match p.kind
      case BankingValidationKind => Success(ValidateBankingSecret(secret))
      case ExportKind =>
        if secret.exportable then Success(PluginResult(true, Some("Export successful"), ExportPayload))
        else Failure(ExecutionFailed("Secret does not support export"))
      case BackupKind => Success(PluginResult(true, Some("Backup created successfully"), BackupPayload(secret.id)))
  }

  /** `PluginManager`: plugins keyed by their `id`. */
  class PluginManager {
    var plugins: map<string, Plugin>

    /** Every plugin is stored under its own id. */
    predicate Valid()
      reads this
    {
      forall k :: k in plugins ==> plugins[k].id == k
    }

    constructor ()
      ensures Valid() && plugins == map[]
    {
      plugins := map[];
    }

    /** `register(_:)`: replaces any plugin with the same id. */
    method Register(plugin: Plugin)
      requires Valid()
      modifies this
      ensures Valid()
      ensures plugins == old(plugins)[plugin.id := plugin]
      ensures Lookup(plugin.id) == Some(plugin)
      ensures forall c :: plugin in PluginsFor(c) <==> c in plugin.supportedCategories
    {
      plugins := plugins[plugin.id := plugin];
    }

    /** `unregister(pluginId:)`: removes that id and nothing else. */
    method Unregister(pluginId: string)
      requires Valid()
      modifies this
      ensures Valid()
      ensures plugins == old(plugins) - {pluginId}
      ensures Lookup(pluginId) == None
      ensures forall k :: k != pluginId ==> Lookup(k) == old(Lookup(k))
    {
      plugins := plugins - {pluginId};
    }

    /** `plugins[pluginId]`. */
    function Lookup(pluginId: string): (r: Option<Plugin>)
      reads this
      requires Valid()
      ensures r.Some? <==> pluginId in plugins
      ensures r.Some? ==> r.value.id == pluginId
    {
      if pluginId in plugins then Some(plugins[pluginId]) else None
    }

    /** `allPlugins()`; order is unspecified. Since ids are keys, no plugin appears twice. */
    function AllPlugins(): (ps: set<Plugin>)
      reads this
      requires Valid()
      ensures forall p :: p in ps <==> Lookup(p.id) == Some(p)
    {
      plugins.Values
    }

    /** `plugins(for:)`: exactly the registered plugins that list `category`. */
    function PluginsFor(category: SecretCategory): (ps: set<Plugin>)
      reads this
      requires Valid()
      ensures forall p :: p in ps <==> Lookup(p.id) == Some(p) && category in p.supportedCategories
    {
      set p | p in plugins.Values && category in p.supportedCategories
    }

    /** `execute(pluginId:action:on:)`. */
    method Execute(pluginId: string, action: PluginAction, secret: PluginSubject)
      returns (r: Result<PluginResult, PluginError>)
      requires Valid()
      ensures pluginId !in plugins ==> r == Failure(PluginNotFound)
      ensures pluginId in plugins ==> r == PerformAction(plugins[pluginId], action, secret)
    {
      if pluginId !in plugins {
        return Failure(PluginNotFound);
      }
      r := PerformAction(plugins[pluginId], action, secret);
    }
  }

  /** A secret template, by its static `templateName` and `templateDescription`. */
  datatype Template = Template(templateName: string, templateDescription: string)

  /** `TemplateManager`: templates keyed by `templateName`. */
  class TemplateManager {
    var templates: map<string, Template>

    /** Every template is stored under its own name. */
    predicate Valid()
      reads this
    {
      forall k :: k in templates ==> templates[k].templateName == k
    }

    /**
      `init()` registers the built-in templates, the bank-account one and then
      the API-key one; their definitions are not part of this model, so they are
      parameters.
     */
    constructor (bankAccount: Template, apiKey: Template)
      ensures Valid()
      ensures templates == map[bankAccount.templateName := bankAccount][apiKey.templateName := apiKey]
    {
      templates := map[];
      new;
      Register(bankAccount);
      Register(apiKey);
    }

    /** `register(_:)`: a later registration under the same name replaces the earlier one. */
    method Register(template: Template)
      requires Valid()
      modifies this
      ensures Valid()
      ensures templates == old(templates)[template.templateName := template]
      ensures TemplateNamed(template.templateName) == Some(template)
    {
      templates := templates[template.templateName := template];
    }

    /** `availableTemplates()`; order is unspecified. */
    function AvailableTemplates(): (ts: set<Template>)
      reads this
      requires Valid()
      ensures forall t :: t in ts <==> TemplateNamed(t.templateName) == Some(t)
    {
      templates.Values
    }

    /** `template(named:)`. */
    function TemplateNamed(name: string): (r: Option<Template>)
      reads this
      requires Valid()
      ensures r.Some? <==> name in templates
      ensures r.Some? ==> r.value.templateName == name
    {
      if name in templates then Some(templates[name]) else None
    }
  }
}
