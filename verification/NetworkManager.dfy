/** The network manager as it runs (src/handler/network.rs:22-279). */
module NetworkManagers {
  import opened Options
  import opened Http
  import opened NetworkSpec
  import opened NetworkRuns

  class NetworkManager {
    var queuedEvents: seq<NetworkEvent>
    var requests: map<RequestId, HttpRequest>
    var requestsWillBeSent: map<RequestId, SentEvent>
    var extraHeaders: map<string, string>
    var interceptionIds: map<RequestId, FetchId>
    var userCacheDisabled: bool
    var attemptedAuthentications: set<FetchId>
    var credentials: Option<Credentials>
    var userInterception: bool
    var protocolInterception: bool
    var offline: bool

    constructor ()
      ensures State() == NEW_NETWORK
    {
      queuedEvents, requests, requestsWillBeSent, extraHeaders, interceptionIds := [], map[], map[], map[], map[];
      userCacheDisabled, attemptedAuthentications, credentials := false, {}, None;
      userInterception, protocolInterception, offline := false, false, false;
    }

    function State(): Network
      reads this
    {
      Network(queuedEvents, requests, requestsWillBeSent, interceptionIds, extraHeaders, userCacheDisabled,
              attemptedAuthentications, credentials, userInterception, protocolInterception, offline)
    }

    /** Requests sit under their own id, and unmatched announcements and pauses never share one. */
    predicate Valid()
      reads this
    {
      Paired(State())
    }

    method PushCdpRequest(command: Command)
      modifies this`queuedEvents
      ensures queuedEvents == old(queuedEvents) + [SendCdpRequest(command)]
    {
      queuedEvents := queuedEvents + [SendCdpRequest(command)];
    }

    method Poll() returns (event: Option<NetworkEvent>)
      modifies this`queuedEvents
      ensures event == if old(queuedEvents) == [] then None else Some(old(queuedEvents)[0])
      ensures State() == Step(old(State()), Polled)
    {
      if queuedEvents == [] {
        return None;
      }
      event := Some(queuedEvents[0]);
      queuedEvents := queuedEvents[1..];
    }

    // ---------- Settings ----------

    method SetExtraHeaders(headers: map<string, string>)
      modifies this
      ensures State() == NetworkSpec.SetExtraHeaders(old(State()), headers)
    {
      extraHeaders := headers;
      PushCdpRequest(ExtraHeaders(headers));
    }

    method SetRequestInterception(enabled: bool)
      modifies this
      ensures State() == NetworkSpec.SetRequestInterception(old(State()), enabled)
    {
      userInterception := enabled;
      UpdateProtocolRequestInterception();
    }

    method SetCacheEnabled(enabled: bool)
      modifies this
      ensures State() == NetworkSpec.SetCacheEnabled(old(State()), enabled)
    {
      userCacheDisabled := !enabled;
      UpdateProtocolCacheDisabled();
    }

    method UpdateProtocolCacheDisabled()
      modifies this`queuedEvents
      ensures State() == UpdateCacheDisabled(old(State()))
    {
      PushCdpRequest(SetCacheDisabled(userCacheDisabled || protocolInterception));
    }

    method Authenticate(creds: Credentials)
      modifies this
      ensures State() == NetworkSpec.Authenticate(old(State()), creds)
    {
      credentials := Some(creds);
      UpdateProtocolRequestInterception();
    }

    method UpdateProtocolRequestInterception()
      modifies this`queuedEvents, this`protocolInterception
      ensures State() == UpdateInterception(old(State()))
    {
      var enabled := userInterception || credentials.Some?;
      if enabled == protocolInterception {
        return;
      }
      UpdateProtocolCacheDisabled();
      protocolInterception := enabled;
      if enabled {
        PushCdpRequest(FetchEnable);
      } else {
        PushCdpRequest(FetchDisable);
      }
    }

    method SetOfflineMode(value: bool)
      modifies this
      ensures State() == NetworkSpec.SetOfflineMode(old(State()), value)
    {
      if offline == value {
        return;
      }
      offline := value;
      PushCdpRequest(EmulateOffline(offline));
    }

    // ---------- Events ----------

    method OnFetchRequestPaused(event: PausedEvent)
      requires Valid()
      modifies this
      ensures Valid() && State() == OnRequestPaused(old(State()), event)
    {
      hide Paired, NetworkSpec.OnRequest, NewRequest;
      PausedStaysPaired(State(), event);
      if !userInterception && protocolInterception {
        PushCdpRequest(ContinueRequest(event.fetchId));
      }
      if event.networkId.Some? {
        var id := event.networkId.value;
        if id in requestsWillBeSent {
          var sent := requestsWillBeSent[id];
          requestsWillBeSent := requestsWillBeSent - {id};
          OnRequest(sent, Some(event.fetchId));
        } else {
          interceptionIds := interceptionIds[id := event.fetchId];
        }
      }
    }

    method OnFetchAuthRequired(id: FetchId)
      requires Valid()
      modifies this
      ensures Valid() && State() == OnAuthRequired(old(State()), id)
    {
      var response;
      if id in attemptedAuthentications {
        response := CancelAuth;
      } else if credentials.Some? {
        attemptedAuthentications := attemptedAuthentications + {id};
        response := ProvideCredentials;
      } else {
        response := Default;
      }
      PushCdpRequest(ContinueWithAuth(id, response, credentials));
    }

    method OnRequestWillBeSent(event: SentEvent)
      requires Valid()
      modifies this
      ensures Valid() && State() == OnWillBeSent(old(State()), event)
    {
      SentStaysPaired(State(), event);
      if protocolInterception && !event.dataUrl {
        if event.requestId in interceptionIds {
          var interception := interceptionIds[event.requestId];
          interceptionIds := interceptionIds - {event.requestId};
          OnRequest(event, Some(interception));
        } else {
          requestsWillBeSent := requestsWillBeSent[event.requestId := event];
        }
      } else {
        OnRequest(event, None);
      }
    }

    method OnRequestServedFromCache(id: RequestId)
      requires Valid()
      modifies this
      ensures Valid() && State() == OnServedFromCache(old(State()), id)
    {
      if id in requests {
        requests := requests[id := requests[id].(fromMemoryCache := true)];
      }
    }

    method OnResponseReceived(id: RequestId, response: HttpResponse)
      requires Valid()
      modifies this
      ensures Valid() && State() == NetworkSpec.OnResponseReceived(old(State()), id, response)
    {
      if id in requests {
        var request := requests[id];
        requests := requests - {id};
        request := request.(response := Some(response));
        queuedEvents := queuedEvents + [RequestFinished(request)];
      }
    }

    method OnNetworkLoadingFinished(id: RequestId)
      requires Valid()
      modifies this
      ensures Valid() && State() == OnLoadingFinished(old(State()), id)
    {
      if id in requests {
        var request := requests[id];
        requests := requests - {id};
        if request.interceptionId.Some? {
          attemptedAuthentications := attemptedAuthentications - {request.interceptionId.value};
        }
        queuedEvents := queuedEvents + [RequestFinished(request)];
      }
    }

    method OnNetworkLoadingFailed(id: RequestId, text: string)
      requires Valid()
      modifies this
      ensures Valid() && State() == OnLoadingFailed(old(State()), id, text)
    {
      if id in requests {
        var request := requests[id];
        requests := requests - {id};
        request := request.(failureText := Some(text));
        if request.interceptionId.Some? {
          attemptedAuthentications := attemptedAuthentications - {request.interceptionId.value};
        }
        queuedEvents := queuedEvents + [RequestFailed(request)];
      }
    }

    method OnRequest(event: SentEvent, interception: Option<FetchId>)
      modifies this
      ensures State() == NetworkSpec.OnRequest(old(State()), event, interception)
    {
      var chain := [];
      if event.redirect.Some? && event.requestId in requests {
        var request := requests[event.requestId];
        requests := requests - {event.requestId};
        request := HandleRequestRedirect(request, event.redirect.value);
        chain := request.redirectChain;
        chain := chain + [request.(redirectChain := [])];
      }
      var request := NewRequest(event.requestId, event.frame, interception, userInterception, chain);
      requests := requests[event.requestId := request];
      queuedEvents := queuedEvents + [RequestStarted(event.requestId)];
    }

    method HandleRequestRedirect(request: HttpRequest, response: HttpResponse) returns (r: HttpRequest)
      modifies this`attemptedAuthentications
      ensures r == request.(response := Some(response))
      ensures attemptedAuthentications == Released(old(attemptedAuthentications), request)
    {
      r := request.(response := Some(response));
      if r.interceptionId.Some? {
        attemptedAuthentications := attemptedAuthentications - {r.interceptionId.value};
      }
    }
  }
}
