/**
 * The native app's authentication client configuration
 * (apps/native/lib/auth-client.ts): the server base URL, with the host name
 * `localhost` rewritten so that a phone or an emulator can reach the
 * developer's machine.
 */
module AuthClient {
  import opened Wrappers
  import opened Strings

  /** React Native's `Platform.OS`. */
  datatype Platform = Web | Android | IOS | Windows | MacOS

  const Localhost: string := "localhost"
  /** The address under which the Android emulator reaches its host machine. */
  const AndroidEmulatorHost: string := "10.0.2.2"

  /**
   * `debuggerHost?.split(":")[0]`, where `hostUri` is the Expo dev server's
   * `host:port` (None when the app config has no `hostUri`).
   */
  function DevHost(hostUri: Option<string>): (r: Option<string>)
    ensures r.None? <==> hostUri.None?
    ensures r.Some? ==> r.value <= hostUri.value && ':' !in r.value
    ensures r.Some? && |r.value| < |hostUri.value| ==> hostUri.value[|r.value|] == ':'
  {
    match hostUri
    case None => None
    case Some(h) => Some(BeforeFirst(h, ':'))
  }

  /** The JavaScript truthiness of `localhost`: present and non-empty. */
  predicate UsableHost(host: Option<string>) {
    host.Some? && host.value != ""
  }

  /** `getBaseUrl()` of auth-client.ts, over the configured server URL `url`. */
  function GetBaseUrl(os: Platform, url: string, hostUri: Option<string>): (r: string)
    ensures os == Web || !Includes(url, Localhost) ==> r == url
    ensures r == url
         || (UsableHost(DevHost(hostUri)) && r == ReplaceFirst(url, Localhost, DevHost(hostUri).value))
         || (os == Android && r == ReplaceFirst(url, Localhost, AndroidEmulatorHost))
  {
    if os == Web then url
    else if Includes(url, Localhost) then
      var host := DevHost(hostUri);
      if UsableHost(host) then ReplaceFirst(url, Localhost, host.value)
      else if os == Android then ReplaceFirst(url, Localhost, AndroidEmulatorHost)
      else url
    else url
  }

  /** On web, and whenever the URL does not mention `localhost`, the URL is used as configured. */
  lemma BaseUrlUnchanged(os: Platform, url: string, hostUri: Option<string>)
    requires os == Web || forall i: nat :: !OccursAt(url, Localhost, i)
    ensures GetBaseUrl(os, url, hostUri) == url
  {
  }

  /**
   * Off the web, a usable dev-server host replaces the first `localhost`,
   * at index `i`, and nothing else in the URL changes.
   */
  lemma BaseUrlUsesDevHost(os: Platform, url: string, hostUri: Option<string>, i: nat)
    requires os != Web
    requires OccursAt(url, Localhost, i)
    requires forall j: nat :: j < i ==> !OccursAt(url, Localhost, j)
    requires UsableHost(DevHost(hostUri))
    ensures GetBaseUrl(os, url, hostUri)
         == url[..i] + DevHost(hostUri).value + url[i + |Localhost|..]
  {
    ReplaceFirstAt(url, Localhost, DevHost(hostUri).value, i);
  }

  /** Without a usable host, Android's first `localhost` becomes the emulator's host address. */
  lemma BaseUrlOnAndroidEmulator(url: string, hostUri: Option<string>, i: nat)
    requires OccursAt(url, Localhost, i)
    requires forall j: nat :: j < i ==> !OccursAt(url, Localhost, j)
    requires !UsableHost(DevHost(hostUri))
    ensures GetBaseUrl(Android, url, hostUri)
         == url[..i] + AndroidEmulatorHost + url[i + |Localhost|..]
  {
    ReplaceFirstAt(url, Localhost, AndroidEmulatorHost, i);
  }

  /** Without a usable host, any other native platform keeps the URL. */
  lemma BaseUrlOtherPlatform(os: Platform, url: string, hostUri: Option<string>)
    requires os != Web && os != Android
    requires !UsableHost(DevHost(hostUri))
    ensures GetBaseUrl(os, url, hostUri) == url
  {
  }

  /**
   * A dev host is usable exactly when `hostUri` is present and has text
   * before its first `:`; a missing `hostUri` or one like `:8081` is not.
   */
  lemma UsableHostCases(host: string, port: string)
    requires ':' !in host
    ensures UsableHost(DevHost(Some(host + ":" + port))) <==> host != ""
    ensures UsableHost(DevHost(Some(host))) <==> host != ""
    ensures !UsableHost(DevHost(None))
  {
    BeforeFirstOfJoin(host, ':', port);
    BeforeFirstWhole(host, ':');
  }

  /** A `hostUri` of the form `host:port` contributes exactly `host`. */
  lemma DevHostOfHostPort(host: string, port: string)
    requires ':' !in host
    ensures DevHost(Some(host + ":" + port)) == Some(host)
  {
    BeforeFirstOfJoin(host, ':', port);
  }
}
