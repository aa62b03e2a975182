/** Record shapes shared by the screens: the optional-value wrapper and the
    route and chat-message records of types.ts. */
module Types {

  /** A value that may be absent (an optional property, `undefined`). */
  datatype Option<+T> = None | Some(value: T) {

    /** The value, or `default` when absent. */
    function GetOr(default: T): T {
      match this
      case Some(v) => v
      case None => default
    }
  }

  /** One moment attached to a route (types.ts `RouteMoment`). */
  datatype MomentKind = ImageMoment | VideoMoment | VoiceMoment | TextMoment

  datatype RouteMoment = RouteMoment(
    id: string,
    kind: MomentKind,
    url: Option<string>,
    content: Option<string>,
    duration: Option<string>)

  /** A travel route (types.ts `TravelRoute`). Distances, times and climbs are
      display strings such as "4.5km", "1.5h", "124m"; the rating is a number. */
  datatype TravelRoute = TravelRoute(
    id: string,
    title: string,
    author: string,
    authorAvatar: string,
    distance: string,
    time: string,
    climb: string,
    rating: real,
    cover: string,
    moments: seq<RouteMoment>,
    aiSummary: Option<string>)

  /** The kinds of chat message (types.ts `ChatMessage.type`). */
  datatype MessageKind = TextMessage | ImageMessage | RouteMessage | VoiceMessage | LocationMessage

  /** A shared location; latitude and longitude are numbers. */
  datatype Location = Location(name: string, latitude: real, longitude: real)

  /** A chat message (types.ts `ChatMessage`); `timestamp` is milliseconds since the epoch. */
  datatype ChatMessage = ChatMessage(
    id: string,
    senderId: string,
    kind: MessageKind,
    content: Option<string>,
    imageUrl: Option<string>,
    routeData: Option<TravelRoute>,
    locationData: Option<Location>,
    duration: Option<string>,
    timestamp: int)

  /** A scroll container's geometry (`scrollTop`, `scrollHeight`, `clientHeight`). */
  datatype Geometry = Geometry(scrollTop: real, scrollHeight: real, clientHeight: real) {

    /** How far the content extends below the visible part. */
    function Remaining(): real {
      scrollHeight - scrollTop - clientHeight
    }
  }
}
