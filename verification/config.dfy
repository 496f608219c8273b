/** The settings record the backend reads once at start-up (environment values with defaults). */
module Config {

  datatype Settings = Settings(
    clientId: string,
    clientSecret: string,
    frontendUrl: string,
    frontendRedirectPath: string,
    redirectUri: string,
    secretKey: string,
    accessTokenExpireSeconds: int)

  /** The settings when only the variables without a default are given in the environment. */
  function Defaults(clientId: string, clientSecret: string, secretKey: string): (s: Settings)
    ensures s.clientId == clientId && s.clientSecret == clientSecret && s.secretKey == secretKey
    ensures s.frontendUrl == "https://ta.userwei.com" && s.frontendRedirectPath == "/login"
    ensures s.redirectUri == "https://ta.userwei.com/api/oauth/callback"
    ensures s.accessTokenExpireSeconds == 36000
  {
    Settings(
      clientId := clientId,
      clientSecret := clientSecret,
      frontendUrl := "https://ta.userwei.com",
      frontendRedirectPath := "/login",
      redirectUri := "https://ta.userwei.com/api/oauth/callback",
      secretKey := secretKey,
      accessTokenExpireSeconds := 36000)
  }
}
