/** Build-time configuration of the optional remote document store: the
    availability gate, the company id that roots every remote path, and the
    one-time initialisation of the SDK singletons. */
module FirebaseConfig {
  import opened Wrappers

  /** The `VITE_FB_*` variables of the build; `None` is an unset variable. */
  datatype Env = Env(
    apiKey: Option<string>,
    authDomain: Option<string>,
    projectId: Option<string>,
    storageBucket: Option<string>,
    messagingSenderId: Option<string>,
    appId: Option<string>,
    companyId: Option<string>)

  /** The option object handed to the SDK: six of the variables, the company id excluded. */
  datatype FirebaseOptions = FirebaseOptions(
    apiKey: Option<string>,
    authDomain: Option<string>,
    projectId: Option<string>,
    storageBucket: Option<string>,
    messagingSenderId: Option<string>,
    appId: Option<string>)

  function OptionsOf(env: Env): FirebaseOptions {
    FirebaseOptions(env.apiKey, env.authDomain, env.projectId, env.storageBucket,
                    env.messagingSenderId, env.appId)
  }

  /** `isFirebaseConfigured`: the gate is open exactly when both the API key and
      the project id are present and non-empty. */
  function IsConfigured(options: FirebaseOptions): (open: bool)
    ensures open <==> options.apiKey.Some? && options.apiKey.value != ""
                      && options.projectId.Some? && options.projectId.value != ""
  {
    Truthy(options.apiKey) && Truthy(options.projectId)
  }

  /** Only the API key and the project id decide the gate; the other four options never do. */
  lemma GateIgnoresOtherOptions(a: FirebaseOptions, b: FirebaseOptions)
    requires a.apiKey == b.apiKey && a.projectId == b.projectId
    ensures IsConfigured(a) == IsConfigured(b)
  {
  }

  const DefaultCompanyId: string := "newlanka"

  /** `COMPANY_ID`: the configured value when it is non-empty, otherwise the fixed fallback. */
  function CompanyId(env: Env): (id: string)
    ensures id != ""
    ensures Truthy(env.companyId) ==> id == env.companyId.value
    ensures !Truthy(env.companyId) ==> id == "newlanka"
  {
    if Truthy(env.companyId) then env.companyId.value else DefaultCompanyId
  }

  /** An initialised SDK app and the two services obtained from it. */
  datatype App = App(options: FirebaseOptions)
  datatype Firestore = Firestore(app: App)
  datatype Auth = Auth(app: App)

  /** The SDK's process-wide list of initialised apps (`getApps()`). */
  class AppRegistry {
    var apps: seq<App>

    constructor ()
      ensures apps == []
    {
      apps := [];
    }

    /** The module's top-level initialisation: with the gate closed nothing is
        created; with it open the first registered app is reused, or one is
        created from `options` when none exists, and both services are obtained from it. */
    method Initialize(options: FirebaseOptions) returns (app: Option<App>, db: Option<Firestore>, auth: Option<Auth>)
      modifies this
      ensures !IsConfigured(options) ==> app.None? && db.None? && auth.None? && apps == old(apps)
      ensures IsConfigured(options) && old(apps) == [] ==>
        app == Some(App(options)) && apps == [App(options)]
      ensures IsConfigured(options) && old(apps) != [] ==>
        app == Some(old(apps)[0]) && apps == old(apps)
      ensures IsConfigured(options) ==> db == Some(Firestore(app.value)) && auth == Some(Auth(app.value))
    {
      if !IsConfigured(options) {
        return None, None, None;
      }
      var a: App;
      if |apps| == 0 {
        a := App(options);
        apps := apps + [a];
      } else {
        a := apps[0];
      }
      app, db, auth := Some(a), Some(Firestore(a)), Some(Auth(a));
    }
  }
}
