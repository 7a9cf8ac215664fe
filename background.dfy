/**
 * The background worker's message handler (`chrome.runtime.onMessage`): the
 * badge for a likelihood and the per-tab record it stores.
 */
module Background {
  import opened Wrappers
  import opened Storage
  import Popup

  /** A toolbar badge: its text and background colour. */
  datatype Badge = Badge(text: string, color: string)

  /** The badge of a likelihood: from 80 HIGH, from 60 MED, from 40 LOW, below that NONE. */
  function BadgeFor(likelihood: int): (b: Badge)
    ensures b == Badge("HIGH", "#F44336") <==> 80 <= likelihood
    ensures b == Badge("MED", "#FF9800") <==> 60 <= likelihood < 80
    ensures b == Badge("LOW", "#FFEB3B") <==> 40 <= likelihood < 60
    ensures b == Badge("NONE", "#4CAF50") <==> likelihood < 40
  {
    if likelihood >= 80 then Badge("HIGH", "#F44336")
    else if likelihood >= 60 then Badge("MED", "#FF9800")
    else if likelihood >= 40 then Badge("LOW", "#FFEB3B")
    else Badge("NONE", "#4CAF50")
  }

  /** The badge text that goes with each popup band. */
  function BadgeText(b: Popup.Band): string {
    match b
    case Unlikely => "NONE"
    case Maybe => "LOW"
    case Possibly => "MED"
    case Likely => "HIGH"
  }

  /** The badge and the popup put every likelihood in the same band. */
  lemma BadgeAgreesWithPopup(likelihood: int)
    ensures BadgeFor(likelihood).text == BadgeText(Popup.BandOf(likelihood))
  {
  }

  /** A runtime message: its `action`, `likelihood` and `details`. */
  datatype Request = Request(action: string, likelihood: int, details: StoredDetails)

  /** The sending tab: its id and URL. */
  datatype Sender = Sender(tabId: nat, url: string)

  /** The state the handler writes: `chrome.storage.local` and the badge of each tab. */
  class ServiceWorker {
    var storage: map<string, StoredAnalysis>
    var badges: map<nat, Badge>

    constructor ()
      ensures storage == map[] && badges == map[]
    {
      storage := map[];
      badges := map[];
    }

    /**
     * The `onMessage` listener at time `now`: an `updateBadge` request sets the
     * sender tab's badge and stores its record; any other message changes nothing.
     */
    method OnMessage(request: Request, sender: Sender, now: int)
      modifies this
      ensures request.action != "updateBadge" ==> unchanged(this)
      ensures request.action == "updateBadge" ==>
        && badges == old(badges)[sender.tabId := BadgeFor(request.likelihood)]
        && storage == old(storage)[Key(sender.tabId) :=
             StoredAnalysis(request.likelihood, request.details, sender.url, now)]
    {
      if request.action == "updateBadge" {
        var badge := BadgeFor(request.likelihood);
        badges := badges[sender.tabId := badge];
        storage := storage[Key(sender.tabId) :=
          StoredAnalysis(request.likelihood, request.details, sender.url, now)];
      }
    }
  }
}
