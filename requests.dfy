/**
 * The form bodies `resolveToken` and `refreshToken` POST to the token
 * endpoint. A `url.Values` is a map from key to a list of values;
 * `url.Values.Set` replaces the list under a key by the one given value.
 */
module Requests {

  type Form = map<string, seq<string>>

  /** `url.Values.Set(key, value)`. */
  function Set(form: Form, key: string, value: string): (r: Form)
    ensures r.Keys == form.Keys + {key}
    ensures r[key] == [value]
    ensures forall k :: k in form && k != key ==> r[k] == form[k]
  {
    form[key := [value]]
  }

  /** The body of the authorization-code exchange: exactly the credentials, the grant type and the code. */
  function ExchangeForm(clientID: string, clientSecret: string, code: string): (f: Form)
    ensures f.Keys == {"client_id", "client_secret", "grant_type", "code"}
    ensures f["client_id"] == [clientID] && f["client_secret"] == [clientSecret]
    ensures f["grant_type"] == ["authorization_code"] && f["code"] == [code]
  {
    map["client_id" := [clientID], "client_secret" := [clientSecret],
        "grant_type" := ["authorization_code"], "code" := [code]]
  }

  /** The body of the refresh exchange: exactly the credentials, the grant type and the refresh token. */
  function RefreshForm(clientID: string, clientSecret: string, refreshToken: string): (f: Form)
    ensures f.Keys == {"client_id", "client_secret", "grant_type", "refresh_token"}
    ensures f["client_id"] == [clientID] && f["client_secret"] == [clientSecret]
    ensures f["grant_type"] == ["refresh_token"] && f["refresh_token"] == [refreshToken]
  {
    map["client_id" := [clientID], "client_secret" := [clientSecret],
        "grant_type" := ["refresh_token"], "refresh_token" := [refreshToken]]
  }

  /** `resolveToken` filling its `url.Values` one key at a time. */
  method BuildExchangeForm(clientID: string, clientSecret: string, code: string) returns (form: Form)
    ensures form == ExchangeForm(clientID, clientSecret, code)
  {
    form := map[];
    form := Set(form, "client_id", clientID);
    form := Set(form, "client_secret", clientSecret);
    form := Set(form, "grant_type", "authorization_code");
    form := Set(form, "code", code);
  }

  /** `refreshToken` filling its `url.Values` one key at a time. */
  method BuildRefreshForm(clientID: string, clientSecret: string, refreshToken: string) returns (form: Form)
    ensures form == RefreshForm(clientID, clientSecret, refreshToken)
  {
    form := map[];
    form := Set(form, "client_id", clientID);
    form := Set(form, "client_secret", clientSecret);
    form := Set(form, "grant_type", "refresh_token");
    form := Set(form, "refresh_token", refreshToken);
  }
}
