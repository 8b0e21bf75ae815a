/** The download button's two-strategy fetch of the result. */
module Download {
  import opened Api

  const SaveIdLength: nat := 8
  const DownloadingText: string := "Downloading..."
  const ManualSaveMessage: string := "Download failed. Please right-click the image and \"Save Image As\"."

  /** How a download ends: the file is saved from the proxy's bytes or from
      a direct fetch, or the user is told to save the image by hand. */
  datatype DownloadOutcome = SavedViaProxy(fileName: string) | SavedDirect(fileName: string) | ManualSave

  datatype DownloadRun = DownloadRun(requests: seq<Request>, outcome: DownloadOutcome)

  /** The name the saved file gets: `'vector_art_' + generateNanoId(8) + '.png'`. */
  function SaveName(id: string): string {
    "vector_art_" + id + ".png"
  }

  /** Try the proxy first and fetch the address directly only if the proxy
      fails (rejected, not ok, or its body unreadable); both flags say
      whether that strategy delivered the bytes. */
  function DownloadAttempts(url: string, proxyDelivered: bool, directDelivered: bool, saveId: string): DownloadRun {
    if proxyDelivered then DownloadRun([ProxyDownload(url)], SavedViaProxy(SaveName(saveId)))
    else if directDelivered then DownloadRun([ProxyDownload(url), DirectDownload(url)], SavedDirect(SaveName(saveId)))
    else DownloadRun([ProxyDownload(url), DirectDownload(url)], ManualSave)
  }

  /** The proxy is always tried first; the address is fetched directly
      exactly when the proxy failed; the user is told to save by hand exactly
      when both failed; and a saved file is named after `saveId`. */
  lemma DownloadStrategies(url: string, proxyDelivered: bool, directDelivered: bool, saveId: string)
    ensures var run := DownloadAttempts(url, proxyDelivered, directDelivered, saveId);
            && 1 <= |run.requests| <= 2 && run.requests[0] == ProxyDownload(url)
            && (DirectDownload(url) in run.requests <==> !proxyDelivered)
            && (run.outcome.SavedViaProxy? <==> proxyDelivered)
            && (run.outcome == ManualSave <==> !proxyDelivered && !directDelivered)
            && (!run.outcome.ManualSave? ==> run.outcome.fileName == SaveName(saveId))
  {
  }
}
