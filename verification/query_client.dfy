/** The shared query defaults (lib/queryClient.ts). */
module QueryClient {
  import opened Wrappers
  import Api

  /** `staleTime`: fetched data stays fresh for a minute. */
  const StaleTimeMs := 60000

  /**
   * The `retry` option: `isError` is `error instanceof Error` and `hasAuthTag`
   * is `'isAuthError' in error`.
   */
  function Retry(failureCount: int, isError: bool, hasAuthTag: bool): (r: bool)
    ensures isError && hasAuthTag ==> !r
    ensures !(isError && hasAuthTag) ==> (r <==> failureCount < 2)
  {
    if isError && hasAuthTag then false else failureCount < 2
  }

  /** A query is retried at most twice: from the second failure on it gives up. */
  lemma AtMostTwoRetries(failureCount: int, isError: bool, hasAuthTag: bool)
    requires Retry(failureCount, isError, hasAuthTag)
    ensures failureCount < 2 && !(isError && hasAuthTag)
  {
  }

  /** A request rejected with status 401 is tagged by the client and is then never retried. */
  lemma UnauthorizedNeverRetried(failureCount: int, taggedBefore: bool)
    ensures !Retry(failureCount, true, Api.Tagged(taggedBefore, Some(401)))
  {
  }

  /** Any other failure of an untagged request is retried on its first two failures only. */
  lemma OtherFailuresRetriedTwice(failureCount: int, status: Option<int>)
    requires status != Some(401)
    ensures Retry(failureCount, true, Api.Tagged(false, status)) <==> failureCount < 2
  {
  }
}
