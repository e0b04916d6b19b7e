/** The limits, base URLs and error texts shared by the Apple documentation tools. */
module Constants {
  // Result caps
  const MaxSearchResults: nat := 50
  const MaxCollectionsToShow: nat := 5
  const MaxRelatedApisPerSection: nat := 3
  const MaxDocFetcherRelatedApis: nat := 10
  const MaxDocFetcherReferences: nat := 15
  const MaxDocFetcherSimilarApis: nat := 8

  // Cache sizes
  const VideoCacheSize: nat := 200
  const FrameworkCacheSize: nat := 50
  const HttpCacheSize: nat := 100

  // Requests
  const Retries: nat := 3
  /** `RETRY_DELAY`, 1.0 seconds in the source. */
  const RetryDelaySeconds: nat := 1

  // URLs
  const AppleHost := "developer.apple.com"
  const BaseUrl := "https://" + AppleHost
  const DocumentationJsonBase := BaseUrl + "/tutorials/data/documentation/"

  // Error texts
  const InvalidUrl := "URL must be from developer.apple.com"
  const FetchFailed := "Failed to fetch data from Apple Developer Documentation"
  const ParseFailed := "Failed to parse response data"
  const NotFound := "Documentation not found (404). This URL may have been moved or removed."
  const NetworkError := "Network error occurred. Please check your connection."
}
