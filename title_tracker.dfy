/** The watch-party page script (watch-party-extension/content-script.js): it reads
    the titles and the playback position of the Laftel player page, classifies the
    titles, and while the background asks it to track, reports a snapshot to the
    background every second. The element-text helper is shared with the earlier
    producer script, which carries an identical copy. */
module TitleTracker {
  import opened Base

  // ---------------------------------------------------------------- page text

  /** The text-bearing properties of a DOM element; None where the property is not
      a string. */
  datatype Element = Element(innerText: Option<string>, textContent: Option<string>, title: Option<string>)

  /** A property trimmed, or "" when it is not a string (`undefined` is falsy). */
  function TrimmedOr(t: Option<string>): (r: string)
    ensures t.None? ==> r == ""
    ensures Trim(r) == r
  {
    if t.Some? then TrimProperties(t.value); Trim(t.value) else ""
  }

  /** `getElementText`: null for a missing element; otherwise the trimmed
      `innerText`, else the trimmed `textContent`, else the trimmed `title`,
      whichever is first non-empty, and null when all are empty. It never yields
      the empty string, and what it yields is trimmed. */
  function ElementText(e: Option<Element>): (r: Option<string>)
    ensures e.None? ==> r.None?
    ensures e.Some? && TrimmedOr(e.value.innerText) != "" ==> r == Some(TrimmedOr(e.value.innerText))
    ensures e.Some? && TrimmedOr(e.value.innerText) == "" && TrimmedOr(e.value.textContent) != ""
            ==> r == Some(TrimmedOr(e.value.textContent))
    ensures e.Some? && TrimmedOr(e.value.innerText) == "" && TrimmedOr(e.value.textContent) == ""
            ==> r == if TrimmedOr(e.value.title) != "" then Some(TrimmedOr(e.value.title)) else None
    ensures r.Some? ==> r.value != "" && Trim(r.value) == r.value
  {
    if e.None? then None
    else
      var el := e.value;
      var text := TrimmedOr(el.innerText);
      var text := if text == "" && el.textContent.Some? then TrimmedOr(el.textContent) else text;
      var text := if text == "" && el.title.Some? && Trim(el.title.value) != "" then TrimmedOr(el.title) else text;
      if text == "" then None else Some(text)
  }

  /** A title `getElementText` found (a non-empty string is truthy). */
  predicate Present(t: Option<string>)
  {
    t.Some? && t.value != ""
  }

  // ---------------------------------------------------------------- classification

  /** The `source` tag of a snapshot: 'movie', 'series_episode', 'series_as_episode',
      'episode_only' or 'none'. */
  datatype Source = Movie | SeriesEpisode | SeriesAsEpisode | EpisodeOnly | NoTitle

  datatype Titles = Titles(series: Option<string>, episode: Option<string>, source: Source)

  /** The classification in `getVideoInfoForLaftel`: a movie title wins; distinct
      series and episode titles are kept apart; otherwise the one title present is
      reported as the episode. A series is reported only for 'series_episode', an
      episode is missing only for 'none', and whatever is reported is one of the
      titles found. */
  function Classify(series: Option<string>, episode: Option<string>, movie: Option<string>): (r: Titles)
    ensures Present(movie) ==> r == Titles(None, movie, Movie)
    ensures !Present(movie) && Present(series) && Present(episode) && series.value != episode.value
            ==> r == Titles(series, episode, SeriesEpisode)
    ensures !Present(movie) && Present(series) && (!Present(episode) || series == episode)
            ==> r == Titles(None, series, SeriesAsEpisode)
    ensures !Present(movie) && !Present(series) && Present(episode) ==> r == Titles(None, episode, EpisodeOnly)
    ensures r.series.Some? <==> r.source == SeriesEpisode
    ensures r.episode.None? <==> r.source == NoTitle
    ensures r.source == NoTitle <==> !Present(movie) && !Present(series) && !Present(episode)
    ensures r.episode.Some? ==> Present(r.episode) && (r.episode == movie || r.episode == series || r.episode == episode)
  {
    if Present(movie) then Titles(None, movie, Movie)
    else if Present(series) && Present(episode) && series.value != episode.value then Titles(series, episode, SeriesEpisode)
    else if Present(series) && (!Present(episode) || series.value == episode.value) then Titles(None, series, SeriesAsEpisode)
    else if Present(episode) then Titles(None, episode, EpisodeOnly)
    else Titles(None, None, NoTitle)
  }

  /** The `<video>` element's position and length in seconds. */
  datatype Playback = Playback(currentTime: Num, duration: Num)

  /** One `VIDEO_INFO_UPDATE` payload. */
  datatype Snapshot = Snapshot(titles: Titles, currentSeconds: Num, durationSeconds: Num)

  /** `getVideoInfoForLaftel`: null without a video element or when either time is
      NaN; otherwise the classified titles with the raw times. */
  function VideoInfo(video: Option<Playback>, series: Option<Element>, episode: Option<Element>, movie: Option<Element>): (r: Option<Snapshot>)
    ensures r.None? <==> video.None? || video.value.currentTime.NaN? || video.value.duration.NaN?
    ensures r.Some? ==> r.value.titles == Classify(ElementText(series), ElementText(episode), ElementText(movie))
    ensures r.Some? ==> r.value.currentSeconds == video.value.currentTime && r.value.durationSeconds == video.value.duration
  {
    if video.None? then None
    else
      var titles := Classify(ElementText(series), ElementText(episode), ElementText(movie));
      if video.value.currentTime.NaN? || video.value.duration.NaN? then None
      else Some(Snapshot(titles, video.value.currentTime, video.value.duration))
  }

  // ---------------------------------------------------------------- tracking

  /** The page script's tracking state: `isTrackingActive`, the reporting interval,
      the intervals the page's timer list holds, whether the `ended` listener is on
      the video, and the `VIDEO_INFO_UPDATE` messages sent to the background. */
  class Tracker {
    var isTrackingActive: bool
    var intervalId: Option<nat>
    var running: set<nat>
    var nextTimer: nat
    var endListener: bool
    var sent: seq<Option<Snapshot>>

    /** At most one reporting interval runs, it is the one `intervalId` names, and
        it runs exactly while tracking is active. */
    ghost predicate Valid()
      reads this
    {
      && running == (if intervalId.Some? then {intervalId.value} else {})
      && (intervalId.Some? ==> intervalId.value < nextTimer)
      && (isTrackingActive <==> intervalId.Some?)
    }

    constructor ()
      ensures Valid() && !isTrackingActive && intervalId.None? && running == {} && !endListener && sent == []
    {
      isTrackingActive, intervalId, running, nextTimer, endListener, sent := false, None, {}, 0, false, [];
    }

    /** `startTracking`: any previous interval is cleared, tracking is on, one new
        interval runs, and the `ended` listener is added when there is a video. */
    method StartTracking(videoPresent: bool)
      requires Valid()
      modifies this
      ensures Valid()
      ensures isTrackingActive && intervalId == Some(old(nextTimer)) && running == {old(nextTimer)}
      ensures nextTimer == old(nextTimer) + 1
      ensures endListener == (old(endListener) || videoPresent)
      ensures sent == old(sent)
    {
      if intervalId.Some? {
        running := running - {intervalId.value};
      }
      isTrackingActive := true;
      intervalId := Some(nextTimer);
      running := running + {nextTimer};
      nextTimer := nextTimer + 1;
      if videoPresent {
        endListener := true;
      }
    }

    /** `stopTracking`: the interval is cleared, tracking is off, and the `ended`
        listener is removed when there is a video. */
    method StopTracking(videoPresent: bool)
      requires Valid()
      modifies this
      ensures Valid()
      ensures !isTrackingActive && intervalId.None? && running == {}
      ensures nextTimer == old(nextTimer)
      ensures endListener == (old(endListener) && !videoPresent)
      ensures sent == old(sent)
    {
      if intervalId.Some? {
        running := running - {intervalId.value};
      }
      isTrackingActive := false;
      intervalId := None;
      if videoPresent {
        endListener := false;
      }
    }

    /** `sendVideoDataUpdate`: nothing while tracking is inactive; otherwise the
        snapshot, or null, is sent, and tracking stops when the runtime reports that
        the background is gone. */
    method SendVideoDataUpdate(info: Option<Snapshot>, backgroundGone: bool, videoPresent: bool)
      requires Valid()
      modifies this
      ensures Valid()
      ensures !old(isTrackingActive) ==>
        (isTrackingActive == old(isTrackingActive) && intervalId == old(intervalId)
         && running == old(running) && endListener == old(endListener) && sent == old(sent))
      ensures old(isTrackingActive) ==> sent == old(sent) + [info]
      ensures old(isTrackingActive) && !backgroundGone ==>
        (isTrackingActive && intervalId == old(intervalId) && running == old(running) && endListener == old(endListener))
      ensures old(isTrackingActive) && backgroundGone ==>
        (!isTrackingActive && intervalId.None? && running == {} && endListener == (old(endListener) && !videoPresent))
      ensures nextTimer == old(nextTimer)
    {
      if !isTrackingActive {
        return;
      }
      sent := sent + [info];
      if backgroundGone {
        StopTracking(videoPresent);
      }
    }

    /** `handleVideoEnd`: tracking stops and a null snapshot is sent. */
    method HandleVideoEnd()
      requires Valid()
      modifies this
      ensures Valid()
      ensures !isTrackingActive && intervalId.None? && running == {} && !endListener
      ensures nextTimer == old(nextTimer)
      ensures sent == old(sent) + [None]
    {
      StopTracking(true);
      sent := sent + [None];
    }

    /** A `CONTROL_TRACKING` message: 'start' and 'stop' start and stop tracking and
        are acknowledged; another command changes nothing and is not answered. */
    method OnControl(command: string, videoPresent: bool) returns (response: Option<string>)
      requires Valid()
      modifies this
      ensures Valid()
      ensures command == "start" ==>
        (response == Some("tracking_started") && isTrackingActive && intervalId == Some(old(nextTimer))
         && running == {old(nextTimer)} && nextTimer == old(nextTimer) + 1
         && endListener == (old(endListener) || videoPresent))
      ensures command == "stop" ==>
        (response == Some("tracking_stopped") && !isTrackingActive && intervalId.None? && running == {}
         && nextTimer == old(nextTimer) && endListener == (old(endListener) && !videoPresent))
      ensures command != "start" && command != "stop" ==>
        (response.None? && isTrackingActive == old(isTrackingActive) && intervalId == old(intervalId)
         && running == old(running) && nextTimer == old(nextTimer) && endListener == old(endListener))
      ensures sent == old(sent)
    {
      if command == "start" {
        StartTracking(videoPresent);
        response := Some("tracking_started");
      } else if command == "stop" {
        StopTracking(videoPresent);
        response := Some("tracking_stopped");
      } else {
        response := None;
      }
    }
  }
}
