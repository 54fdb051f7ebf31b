/**
 * What the views receive from, and hand back to, the content platform they run
 * in: the app's installation parameters and the notice a handler shows.
 */
module Host {
  import opened Wrappers

  /** `{storeHash?, accessToken?}` as saved by the configuration screen. */
  datatype InstallationParameters = InstallationParameters(storeHash: Option<string>, accessToken: Option<string>)

  /** `parameters.storeHash && parameters.accessToken`: both defined and non-empty. */
  predicate HasCredentials(p: InstallationParameters) {
    p.storeHash.Some? && p.storeHash.value != "" && p.accessToken.Some? && p.accessToken.value != ""
  }

  /** The notifier call a handler ends with, if any. */
  datatype Notice = Silent | NotifySuccess(message: string) | NotifyError(message: string)

  const MissingCredentialsMessage := "Please configure BigCommerce credentials in the app configuration"
}
