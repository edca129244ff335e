/**
 * The native app's RPC client configuration (apps/native/utils/orpc.ts): its
 * own copy of the dev-host base-URL rewriting, the RPC endpoint built from it,
 * and the per-request headers that forward the session cookie.
 */
module OrpcClient {
  import opened Wrappers
  import opened Strings
  import AuthClient

  /** `getBaseUrl()` of orpc.ts; written out again here as the source repeats it. */
  function GetBaseUrl(os: AuthClient.Platform, url: string, hostUri: Option<string>): (r: string)
    ensures r == AuthClient.GetBaseUrl(os, url, hostUri)
  {
    if os == AuthClient.Web then url
    else if Includes(url, AuthClient.Localhost) then
      var host := AuthClient.DevHost(hostUri);
      if AuthClient.UsableHost(host) then ReplaceFirst(url, AuthClient.Localhost, host.value)
      else if os == AuthClient.Android then ReplaceFirst(url, AuthClient.Localhost, AuthClient.AndroidEmulatorHost)
      else url
    else url
  }

  const RpcPath: string := "/api/rpc"

  /** The RPC link's `url`: the base URL followed by the RPC path. */
  function RpcUrl(baseUrl: string): (r: string)
    ensures |r| == |baseUrl| + |RpcPath|
    ensures baseUrl <= r && r[|baseUrl|..] == RpcPath
  {
    baseUrl + RpcPath
  }

  /** The endpoint the RPC link is configured with, for one platform, server URL and dev-server host. */
  function LinkUrl(os: AuthClient.Platform, url: string, hostUri: Option<string>): (r: string)
    ensures AuthClient.GetBaseUrl(os, url, hostUri) <= r
    ensures r[|AuthClient.GetBaseUrl(os, url, hostUri)|..] == RpcPath
  {
    RpcUrl(GetBaseUrl(os, url, hostUri))
  }

  /** On web, and for a server URL without `localhost`, the endpoint is the configured URL plus the RPC path. */
  lemma LinkUrlWithoutRewrite(os: AuthClient.Platform, url: string, hostUri: Option<string>)
    requires os == AuthClient.Web || forall i: nat :: !OccursAt(url, AuthClient.Localhost, i)
    ensures LinkUrl(os, url, hostUri) == url + RpcPath
  {
    AuthClient.BaseUrlUnchanged(os, url, hostUri);
  }

  const CookieHeader: string := "Cookie"

  /**
   * `headers()`: a fresh map that gets a `Cookie` entry only when the auth
   * client's stored cookie string is truthy (present and non-empty).
   */
  method Headers(cookies: Option<string>) returns (headers: map<string, string>)
    ensures CookieHeader in headers <==> cookies.Some? && cookies.value != ""
    ensures CookieHeader in headers ==> headers[CookieHeader] == cookies.value
    ensures headers.Keys <= {CookieHeader}
  {
    headers := map[];
    if cookies.Some? && cookies.value != "" {
      headers := headers[CookieHeader := cookies.value];
    }
  }
}
