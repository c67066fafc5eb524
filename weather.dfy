/**
 * The weather widget: the city fallback of the geolocation lookup, the request URL,
 * how a weather reply becomes label text, and the widget's offset-anchor drag (the
 * variant whose move guard only asks that Left is among the held buttons).
 * HTTP requests are not made: their outcomes are inputs.
 */
module Weather {
  import opened Geometry
  import opened Optional
  import OffsetDrag

  const DefaultCity := "London"
  const ErrorText := "Error fetching weather"
  const Endpoint := "http://api.openweathermap.org/data/2.5/weather?"

  /** The `city` field of the geolocation answer. */
  datatype CityField =
    | Absent               // the answer has no `city` key
    | Null                 // the key is present with the JSON value null
    | Value(text: string)  // any other value, as an f-string renders it

  /** The geolocation lookup's outcome. */
  datatype GeoReply =
    | GeoFailed                                   // the request or the JSON decoding raised
    | GeoAnswered(status: int, city: CityField)

  /**
   * `get_user_city`, as the city is rendered into the request URL: the reported value on
   * status 200 (a null becomes Python's `None`, printed `None`), London when the key is
   * missing, on another status, or when the lookup raised.
   */
  function UserCity(g: GeoReply): (city: string)
    ensures g.GeoAnswered? && g.status == 200 && g.city.Value? ==> city == g.city.text
    ensures g.GeoAnswered? && g.status == 200 && g.city.Null? ==> city == "None"
    ensures !(g.GeoAnswered? && g.status == 200 && !g.city.Absent?) ==> city == DefaultCity
  {
    match g
    case GeoFailed => DefaultCity
    case GeoAnswered(status, city) =>
      if status == 200 then
        (match city case Absent => DefaultCity case Null => "None" case Value(c) => c)
      else DefaultCity
  }

  /** How an f-string renders the API key: an unset key prints as `None`. */
  function KeyText(key: Option<string>): (t: string)
    ensures key.Some? ==> t == key.value
    ensures key.None? ==> t == "None"
  {
    match key
    case Some(k) => k
    case None => "None"
  }

  /**
   * The request URL, built once from the city found at start-up: it names the weather
   * endpoint and carries `q=<city>`, `appid=<key>` and `units=metric`.
   */
  function ApiUrl(city: string, key: Option<string>): (url: string)
    ensures |Endpoint| <= |url| && url[..|Endpoint|] == Endpoint
    ensures Occurs("q=" + city, url)
    ensures Occurs("appid=" + KeyText(key), url)
    ensures Occurs("units=metric", url)
  {
    UrlOnCarriesQuery(Endpoint, city, KeyText(key));
    UrlOn(Endpoint, city, KeyText(key))
  }

  function UrlOn(base: string, city: string, key: string): string {
    base + ("q=" + city) + "&" + ("appid=" + key) + "&" + "units=metric"
  }

  /** `t` occurs in `s` starting at index `i`. */
  predicate OccursAt(t: string, s: string, i: int) {
    0 <= i && i + |t| <= |s| && s[i..i + |t|] == t
  }

  /** `t` occurs in `s` as a contiguous part. */
  ghost predicate Occurs(t: string, s: string) {
    exists i :: OccursAt(t, s, i)
  }

  /** The second, fourth and sixth parts of a six-part concatenation occur in it. */
  lemma PartsOccur(a: string, b: string, c: string, d: string, e: string, f: string)
    ensures (a + b + c + d + e + f)[..|a|] == a
    ensures OccursAt(b, a + b + c + d + e + f, |a|)
    ensures OccursAt(d, a + b + c + d + e + f, |a| + |b| + |c|)
    ensures OccursAt(f, a + b + c + d + e + f, |a| + |b| + |c| + |d| + |e|)
  {
    var s := a + b + c + d + e + f;
    var i := |a| + |b| + |c|;
    var j := i + |d| + |e|;
    assert s[|a|..|a| + |b|] == b;
    assert s[i..i + |d|] == d;
    assert s[j..] == f;
  }

  /** A null city reaches the request as `q=None`. */
  lemma NullCityQueriesNone(key: Option<string>)
    ensures Occurs("q=None", ApiUrl(UserCity(GeoAnswered(200, Null)), key))
  {
    var city := UserCity(GeoAnswered(200, Null));
    assert "q=" + city == "q=None";
    var url := ApiUrl(city, key);
  }

  /** The query parts occur in the URL built on any endpoint. */
  lemma UrlOnCarriesQuery(base: string, city: string, key: string)
    ensures UrlOn(base, city, key)[..|base|] == base
    ensures Occurs("q=" + city, UrlOn(base, city, key))
    ensures Occurs("appid=" + key, UrlOn(base, city, key))
    ensures Occurs("units=metric", UrlOn(base, city, key))
  {
    PartsOccur(base, "q=" + city, "&", "appid=" + key, "&", "units=metric");
  }

  /** The labels the widget shows: the condition text and the temperature text. */
  datatype Labels = Labels(description: string, temperature: string)

  /** The value found at `weather[0].main`: text, or a value a label cannot take. */
  datatype Condition =
    | Text(s: string)  // a string
    | NullValue        // JSON null: the label takes `None` as an empty text
    | NotText          // any other value (a number, a list): the label refuses it and raises

  /** The decoded body: `Malformed` when decoding or a key or index lookup raised. */
  datatype Body = Malformed | Parsed(main: Condition, temp: string)

  /** The weather request's outcome; `temp` is the rendered value of `main.temp`. */
  datatype WeatherReply = Raised | Answered(status: int, body: Body)

  /** `f"{temp}°C"`: the rendered value followed by the degree sign and `C`. */
  function TemperatureText(temp: string): (t: string)
    ensures |t| == |temp| + 2 && t[..|temp|] == temp && t[|temp|..] == "\U{B0}C"
  {
    temp + "\U{B0}C"
  }

  /**
   * A reply that reaches `update_ui`: status 200 and both fields present. Any other reply
   * fails before it: the request raised, the status was not 200, or a field was missing.
   */
  predicate Complete(r: WeatherReply) {
    r.Answered? && r.status == 200 && r.body.Parsed?
  }

  /**
   * `get_weather` then `update_ui`: a complete reply sets the temperature text first and
   * then the condition; every failure inside the `try` sets the error text, and one
   * that happens before `update_ui` leaves the temperature text as it was.
   */
  function Fetch(l: Labels, r: WeatherReply): (l': Labels)
    ensures Complete(r) && r.body.main.Text? ==> l' == Labels(r.body.main.s, TemperatureText(r.body.temp))
    ensures Complete(r) && r.body.main.NullValue? ==> l' == Labels("", TemperatureText(r.body.temp))
    ensures Complete(r) && r.body.main.NotText? ==> l' == Labels(ErrorText, TemperatureText(r.body.temp))
    ensures !Complete(r) ==> l' == l.(description := ErrorText)
    ensures l'.description == ErrorText || (Complete(r) && r.body.main == Text(l'.description))
            || (Complete(r) && r.body.main == NullValue && l'.description == "")
  {
    match r
    case Raised => l.(description := ErrorText)
    case Answered(status, body) =>
      if status != 200 then l.(description := ErrorText)
      else
        match body
        case Malformed => l.(description := ErrorText)
        case Parsed(main, temp) =>
          var shown := l.(temperature := TemperatureText(temp));
          match main
          case Text(s) => shown.(description := s)
          case NullValue => shown.(description := "")
          case NotText => shown.(description := ErrorText)
  }

  /** Polling again with the same reply changes nothing more. */
  lemma FetchIdempotent(l: Labels, r: WeatherReply)
    ensures Fetch(Fetch(l, r), r) == Fetch(l, r)
  {
  }

  /** The labels after a sequence of polls. */
  function PollAll(l: Labels, rs: seq<WeatherReply>): Labels
    decreases |rs|
  {
    if rs == [] then l else PollAll(Fetch(l, rs[0]), rs[1..])
  }

  /** The rendered temperature of the last complete reply of `rs`, if any. */
  function LastTemperature(rs: seq<WeatherReply>): Option<string>
    decreases |rs|
  {
    if rs == [] then None
    else if Complete(rs[|rs| - 1]) then Some(rs[|rs| - 1].body.temp)
    else LastTemperature(rs[..|rs| - 1])
  }

  /** The temperature shown after any polls is that of the last complete reply, else the old text. */
  lemma {:induction false} TemperatureOfLastCompleteReply(l: Labels, rs: seq<WeatherReply>)
    ensures PollAll(l, rs).temperature
         == match LastTemperature(rs) case Some(t) => TemperatureText(t) case None => l.temperature
    decreases |rs|
  {
    if rs != [] {
      var init := rs[..|rs| - 1];
      var last := rs[|rs| - 1];
      PollAllSnoc(l, init, last);
      assert init + [last] == rs;
      TemperatureOfLastCompleteReply(l, init);
    }
  }

  /** Polling `rs` then `r` is polling `rs + [r]`. */
  lemma {:induction false} PollAllSnoc(l: Labels, rs: seq<WeatherReply>, r: WeatherReply)
    ensures PollAll(l, rs + [r]) == Fetch(PollAll(l, rs), r)
    decreases |rs|
  {
    if rs == [] {
      assert [r][1..] == [];
    } else {
      assert (rs + [r])[1..] == rs[1..] + [r];
      PollAllSnoc(Fetch(l, rs[0]), rs[1..], r);
    }
  }

  const Guard := OffsetDrag.LeftAmong

  class WeatherWidget {
    const city: string
    const apiUrl: string
    var description: string
    var temperature: string
    /** `self.start_pos`: the pointer's offset from the top-left corner while dragging. */
    var startPos: Option<Point>
    var topLeft: Point

    function Shown(): Labels
      reads this
    {
      Labels(description, temperature)
    }

    function State(): OffsetDrag.Drag
      reads this
    {
      OffsetDrag.Drag(startPos, topLeft)
    }

    /**
     * Start-up: the city is looked up once (`geo`), the URL fixed from it and the key,
     * the labels built ("Loading...", empty) and the first poll made (`first`).
     */
    constructor (geo: GeoReply, apiKey: Option<string>, first: WeatherReply, initial: Point)
      ensures city == UserCity(geo) && apiUrl == ApiUrl(city, apiKey)
      ensures Shown() == Fetch(Labels("Loading...", ""), first)
      ensures State() == OffsetDrag.Drag(None, initial)
    {
      city := UserCity(geo);
      apiUrl := ApiUrl(UserCity(geo), apiKey);
      description := "Loading...";
      temperature := "";
      startPos := None;
      topLeft := initial;
      new;
      var _ := GetWeather(first);
    }

    /** One poll; `reply` is the outcome of the request to the returned URL. */
    method GetWeather(reply: WeatherReply) returns (url: string)
      modifies this
      ensures url == apiUrl
      ensures Shown() == Fetch(old(Shown()), reply)
      ensures State() == old(State())
    {
      url := apiUrl;
      match reply
      case Raised =>
        description := ErrorText;
      case Answered(status, body) =>
        if status == 200 {
          match body
          case Malformed =>
            description := ErrorText;
          case Parsed(main, temp) =>
            var raised := UpdateUi(main, temp);
            if raised {
              description := ErrorText;
            }
        } else {
          description := ErrorText;
        }
    }

    /** Sets the temperature text, then the condition; reports whether the label refused it. */
    method UpdateUi(main: Condition, temp: string) returns (raised: bool)
      modifies this
      ensures raised == main.NotText?
      ensures temperature == TemperatureText(temp)
      ensures main.Text? ==> description == main.s
      ensures main.NullValue? ==> description == ""
      ensures main.NotText? ==> description == old(description)
      ensures State() == old(State())
    {
      temperature := TemperatureText(temp);
      match main
      case Text(s) =>
        description := s;
        raised := false;
      case NullValue =>
        description := "";
        raised := false;
      case NotText =>
        raised := true;
    }

    method MousePress(button: MouseButton, global: Point)
      modifies this
      ensures State() == OffsetDrag.Press(old(State()), button, global)
      ensures Shown() == old(Shown())
    {
      if button == LeftButton {
        startPos := Some(global.Minus(topLeft));
      }
    }

    method MouseMove(held: set<MouseButton>, global: Point)
      modifies this
      ensures State() == OffsetDrag.Move(Guard, old(State()), held, global)
      ensures Shown() == old(Shown())
    {
      if startPos != None && LeftButton in held {
        topLeft := global.Minus(startPos.value);
      }
    }

    method MouseRelease(button: MouseButton)
      modifies this
      ensures State() == OffsetDrag.Release(old(State()), button)
      ensures Shown() == old(Shown())
    {
      if button == LeftButton {
        startPos := None;
      }
    }
  }
}
