/**
 * Reading the tracks of a library listing page (`extract_tracks_from_document`):
 * three strategies in turn, each adding only tracks whose names are new.
 */
module TrackExtraction {
  import opened Wrappers
  import opened LastFmTypes

  /** At most this many tracks are extracted from one listing. */
  const MaxTracks: nat := 50
  /** Below this many tracks from the first two strategies, the table rows are read as well. */
  const TableFallbackBelow: nat := 10

  /**
   * A track listing as the extraction sees it: the `data-track-name`
   * attributes ("" where one is empty), the values of the `track` inputs
   * (none where an input has no value), and for each name the play count and
   * timestamp the page shows for it, if any.
   */
  datatype TrackListing = TrackListing(
    attrNames: seq<string>,
    inputValues: seq<Option<string>>,
    playcountOf: string -> Option<nat>,
    timestampOf: string -> Option<nat>)

  /** The tracks extracted so far and the names already taken. */
  datatype Extraction = Extraction(tracks: seq<Track>, seen: set<string>)

  function ListedTrack(doc: TrackListing, name: string, playcount: nat, artist: string, album: Option<string>): Track {
    Track(name, artist, playcount, doc.timestampOf(name), album, None)
  }

  /**
   * Strategy 1, from `names[i..]` on: a new non-empty name is taken, and
   * becomes a track when the page shows its play count; it stops at 50.
   */
  function FromAttributes(doc: TrackListing, names: seq<string>, artist: string, album: Option<string>,
                          acc: Extraction): Extraction
    decreases |names|
  {
    if names == [] || |acc.tracks| >= MaxTracks then acc
    else
      var n := names[0];
      var next :=
        if n == "" || n in acc.seen then acc
        else if doc.playcountOf(n).Some? then
          Extraction(acc.tracks + [ListedTrack(doc, n, doc.playcountOf(n).value, artist, album)], acc.seen + {n})
        else Extraction(acc.tracks, acc.seen + {n});
      FromAttributes(doc, names[1..], artist, album, next)
  }

  /** Strategy 2: a new non-empty input value is taken, with play count 0 when none is shown; it stops at 50. */
  function FromInputs(doc: TrackListing, values: seq<Option<string>>, artist: string, album: Option<string>,
                      acc: Extraction): Extraction
    decreases |values|
  {
    if values == [] || |acc.tracks| >= MaxTracks then acc
    else
      var next :=
        match values[0]
        case Some(n) =>
          if n == "" || n in acc.seen then acc
          else Extraction(acc.tracks + [ListedTrack(doc, n, doc.playcountOf(n).UnwrapOr(0), artist, album)], acc.seen + {n})
        case None => acc;
      FromInputs(doc, values[1..], artist, album, next)
  }

  /** Strategy 3: a table track whose name is new is taken while there are fewer than 50. */
  function FromTable(table: seq<Track>, acc: Extraction): Extraction
    decreases |table|
  {
    if table == [] then acc
    else
      var t := table[0];
      var next := if t.name !in acc.seen && |acc.tracks| < MaxTracks then Extraction(acc.tracks + [t], acc.seen + {t.name}) else acc;
      FromTable(table[1..], next)
  }

  /** The first two strategies, the second only when the first found fewer than 50. */
  function FirstStrategies(doc: TrackListing, artist: string, album: Option<string>): Extraction {
    var s1 := FromAttributes(doc, doc.attrNames, artist, album, Extraction([], {}));
    if |s1.tracks| < MaxTracks then FromInputs(doc, doc.inputValues, artist, album, s1) else s1
  }

  /**
   * The tracks of a listing; `table` is the outcome of parsing its table
   * rows, consulted (and its error passed on) only when the first two
   * strategies found fewer than 10 tracks.
   */
  function ExtractedTracks(doc: TrackListing, artist: string, album: Option<string>,
                           table: Result<seq<Track>, LastFmError>): Result<seq<Track>, LastFmError>
  {
    var s := FirstStrategies(doc, artist, album);
    if |s.tracks| < TableFallbackBelow then
      match table
      case Err(e) => Err(e)
      case Ok(rows) => Ok(FromTable(rows, s).tracks)
    else Ok(s.tracks)
  }

  /**
   * `extract_tracks_from_document`. Its first step, reading tracks from
   * JSON embedded in the page, always fails in this version of the parser,
   * so the three strategies always run.
   */
  method ExtractTracksFromDocument(doc: TrackListing, artist: string, album: Option<string>,
                                   table: Result<seq<Track>, LastFmError>)
    returns (r: Result<seq<Track>, LastFmError>)
    ensures r == ExtractedTracks(doc, artist, album, table)
  {
    var tracks, seen := StrategyOne(doc, artist, album);
    if |tracks| < MaxTracks {
      tracks, seen := StrategyTwo(doc, artist, album, tracks, seen);
    }
    if |tracks| < TableFallbackBelow {
      if table.Err? {
        return Err(table.error);
      }
      tracks, seen := StrategyThree(table.value, tracks, seen);
    }
    r := Ok(tracks);
  }

  method StrategyOne(doc: TrackListing, artist: string, album: Option<string>)
    returns (tracks: seq<Track>, seen: set<string>)
    ensures Extraction(tracks, seen) == FromAttributes(doc, doc.attrNames, artist, album, Extraction([], {}))
  {
    tracks, seen := [], {};
    var names := doc.attrNames;
    for i := 0 to |names|
      invariant |tracks| < MaxTracks
      invariant FromAttributes(doc, names, artist, album, Extraction([], {}))
             == FromAttributes(doc, names[i..], artist, album, Extraction(tracks, seen))
    {
      assert names[i..][1..] == names[i + 1..];
      var n := names[i];
      if n != "" && n !in seen {
        seen := seen + {n};
        var playcount := doc.playcountOf(n);
        if playcount.Some? {
          tracks := tracks + [ListedTrack(doc, n, playcount.value, artist, album)];
        }
        if |tracks| >= MaxTracks {
          assert FromAttributes(doc, names[i + 1..], artist, album, Extraction(tracks, seen)) == Extraction(tracks, seen);
          break;
        }
      }
    }
  }

  method StrategyTwo(doc: TrackListing, artist: string, album: Option<string>, tracks0: seq<Track>, seen0: set<string>)
    returns (tracks: seq<Track>, seen: set<string>)
    requires |tracks0| < MaxTracks
    requires Extraction(tracks0, seen0) == FromAttributes(doc, doc.attrNames, artist, album, Extraction([], {}))
    ensures Extraction(tracks, seen) == FirstStrategies(doc, artist, album)
  {
    tracks, seen := tracks0, seen0;
    var values := doc.inputValues;
    for i := 0 to |values|
      invariant |tracks| < MaxTracks
      invariant FromInputs(doc, values, artist, album, Extraction(tracks0, seen0))
             == FromInputs(doc, values[i..], artist, album, Extraction(tracks, seen))
    {
      assert values[i..][1..] == values[i + 1..];
      if values[i].Some? {
        var n := values[i].value;
        if n != "" && n !in seen {
          seen := seen + {n};
          tracks := tracks + [ListedTrack(doc, n, doc.playcountOf(n).UnwrapOr(0), artist, album)];
          if |tracks| >= MaxTracks {
            assert FromInputs(doc, values[i + 1..], artist, album, Extraction(tracks, seen)) == Extraction(tracks, seen);
            break;
          }
        }
      }
    }
  }

  method StrategyThree(table: seq<Track>, tracks0: seq<Track>, seen0: set<string>)
    returns (tracks: seq<Track>, seen: set<string>)
    ensures Extraction(tracks, seen) == FromTable(table, Extraction(tracks0, seen0))
  {
    tracks, seen := tracks0, seen0;
    for i := 0 to |table|
      invariant FromTable(table, Extraction(tracks0, seen0)) == FromTable(table[i..], Extraction(tracks, seen))
    {
      assert table[i..][1..] == table[i + 1..];
      var t := table[i];
      if t.name !in seen && |tracks| < MaxTracks {
        seen := seen + {t.name};
        tracks := tracks + [t];
      }
    }
  }

  /** No two tracks share a name. */
  predicate DistinctNames(tracks: seq<Track>) {
    forall i, j :: 0 <= i < j < |tracks| ==> tracks[i].name != tracks[j].name
  }

  /** What every strategy keeps: distinct names, all of them seen, at most 50 tracks. */
  predicate Sound(acc: Extraction) {
    DistinctNames(acc.tracks) && (forall t :: t in acc.tracks ==> t.name in acc.seen) && |acc.tracks| <= MaxTracks
  }

  /** A track built from the listing itself: a non-empty name, the requested artist and album, the page's timestamp. */
  predicate Listed(doc: TrackListing, artist: string, album: Option<string>, t: Track) {
    t.name != "" && t.artist == artist && t.album == album && t.albumArtist.None? && t.timestamp == doc.timestampOf(t.name)
  }

  lemma Extend(acc: Extraction, t: Track)
    requires Sound(acc) && t.name !in acc.seen && |acc.tracks| < MaxTracks
    ensures Sound(Extraction(acc.tracks + [t], acc.seen + {t.name}))
  {
    var ts := acc.tracks + [t];
    forall i, j | 0 <= i < j < |ts| ensures ts[i].name != ts[j].name {
      if j == |acc.tracks| {
        assert ts[i] in acc.tracks;
      } else {
        assert ts[i] == acc.tracks[i] && ts[j] == acc.tracks[j];
      }
    }
  }

  /**
   * Strategy 1 keeps the extraction sound and only appends tracks for names
   * of the listing whose play count the page shows, with that play count.
   */
  lemma {:induction false} FromAttributesFacts(doc: TrackListing, names: seq<string>, artist: string,
                                               album: Option<string>, acc: Extraction)
    requires Sound(acc)
    ensures var r := FromAttributes(doc, names, artist, album, acc);
      Sound(r) && acc.tracks <= r.tracks && acc.seen <= r.seen
      && forall t :: t in r.tracks ==>
           t in acc.tracks || (t.name in names && Listed(doc, artist, album, t) && doc.playcountOf(t.name) == Some(t.playcount))
    decreases |names|
  {
    if names != [] && |acc.tracks| < MaxTracks {
      var n := names[0];
      if n == "" || n in acc.seen {
        FromAttributesFacts(doc, names[1..], artist, album, acc);
      } else if doc.playcountOf(n).Some? {
        var t := ListedTrack(doc, n, doc.playcountOf(n).value, artist, album);
        Extend(acc, t);
        FromAttributesFacts(doc, names[1..], artist, album, Extraction(acc.tracks + [t], acc.seen + {n}));
      } else {
        FromAttributesFacts(doc, names[1..], artist, album, Extraction(acc.tracks, acc.seen + {n}));
      }
    }
  }

  /**
   * While strategy 1 stays under 50 tracks, every seen name whose play count
   * the page shows has its track: a name of the listing is only ever skipped
   * for want of a play count.
   */
  lemma {:induction false} FromAttributesComplete(doc: TrackListing, names: seq<string>, artist: string,
                                                  album: Option<string>, acc: Extraction)
    requires forall s :: s in acc.seen && doc.playcountOf(s).Some? ==> exists t :: t in acc.tracks && t.name == s
    ensures var r := FromAttributes(doc, names, artist, album, acc);
      |r.tracks| < MaxTracks ==>
        forall n :: n in names && n != "" && doc.playcountOf(n).Some? ==> exists t :: t in r.tracks && t.name == n
    decreases |names|
  {
    var r := FromAttributes(doc, names, artist, album, acc);
    if names != [] && |acc.tracks| < MaxTracks {
      var n := names[0];
      var next :=
        if n == "" || n in acc.seen then acc
        else if doc.playcountOf(n).Some? then
          Extraction(acc.tracks + [ListedTrack(doc, n, doc.playcountOf(n).value, artist, album)], acc.seen + {n})
        else Extraction(acc.tracks, acc.seen + {n});
      assert r == FromAttributes(doc, names[1..], artist, album, next);
      FromAttributesGrows(doc, names[1..], artist, album, next);
      forall s | s in next.seen && doc.playcountOf(s).Some? ensures exists t :: t in next.tracks && t.name == s {
        if s in acc.seen {
          var t :| t in acc.tracks && t.name == s;
          assert t in next.tracks;
        } else {
          assert s == n;
          assert next.tracks[|next.tracks| - 1].name == s;
        }
      }
      FromAttributesComplete(doc, names[1..], artist, album, next);
      if |r.tracks| < MaxTracks && n != "" && doc.playcountOf(n).Some? {
        var t :| t in next.tracks && t.name == n;
        assert t in r.tracks;
      }
    }
  }

  lemma {:induction false} FromAttributesGrows(doc: TrackListing, names: seq<string>, artist: string,
                                               album: Option<string>, acc: Extraction)
    ensures var r := FromAttributes(doc, names, artist, album, acc);
      acc.tracks <= r.tracks && acc.seen <= r.seen
    decreases |names|
  {
    if names != [] && |acc.tracks| < MaxTracks {
      var n := names[0];
      if n == "" || n in acc.seen {
        FromAttributesGrows(doc, names[1..], artist, album, acc);
      } else if doc.playcountOf(n).Some? {
        FromAttributesGrows(doc, names[1..], artist, album,
          Extraction(acc.tracks + [ListedTrack(doc, n, doc.playcountOf(n).value, artist, album)], acc.seen + {n}));
      } else {
        FromAttributesGrows(doc, names[1..], artist, album, Extraction(acc.tracks, acc.seen + {n}));
      }
    }
  }

  /**
   * Strategy 2 keeps the extraction sound and only appends tracks for
   * non-empty input values, with the page's play count or 0.
   */
  lemma {:induction false} FromInputsFacts(doc: TrackListing, values: seq<Option<string>>, artist: string,
                                           album: Option<string>, acc: Extraction)
    requires Sound(acc)
    ensures var r := FromInputs(doc, values, artist, album, acc);
      Sound(r) && acc.tracks <= r.tracks
      && forall t :: t in r.tracks ==>
           t in acc.tracks || (Some(t.name) in values && Listed(doc, artist, album, t)
                               && t.playcount == doc.playcountOf(t.name).UnwrapOr(0))
    decreases |values|
  {
    if values != [] && |acc.tracks| < MaxTracks {
      if values[0].Some? && values[0].value != "" && values[0].value !in acc.seen {
        var n := values[0].value;
        var t := ListedTrack(doc, n, doc.playcountOf(n).UnwrapOr(0), artist, album);
        Extend(acc, t);
        FromInputsFacts(doc, values[1..], artist, album, Extraction(acc.tracks + [t], acc.seen + {n}));
      } else {
        FromInputsFacts(doc, values[1..], artist, album, acc);
      }
    }
  }

  /** Strategy 3 keeps the extraction sound and only appends tracks of the table. */
  lemma {:induction false} FromTableFacts(table: seq<Track>, acc: Extraction)
    requires Sound(acc)
    ensures var r := FromTable(table, acc);
      Sound(r) && acc.tracks <= r.tracks && forall t :: t in r.tracks ==> t in acc.tracks || t in table
    decreases |table|
  {
    if table != [] {
      var t := table[0];
      if t.name !in acc.seen && |acc.tracks| < MaxTracks {
        Extend(acc, t);
        FromTableFacts(table[1..], Extraction(acc.tracks + [t], acc.seen + {t.name}));
      } else {
        FromTableFacts(table[1..], acc);
      }
    }
  }

  /**
   * The extracted tracks have distinct names and number at most 50; each
   * is a listed name with its shown play count, an input value with its
   * play count or 0, or a row of the table. The table, and its error, only
   * matter when the first two strategies found fewer than 10 tracks.
   */
  lemma ExtractedTracksFacts(doc: TrackListing, artist: string, album: Option<string>,
                             table: Result<seq<Track>, LastFmError>)
    ensures var r := ExtractedTracks(doc, artist, album, table);
      && (r.Ok? ==>
            DistinctNames(r.value) && |r.value| <= MaxTracks
            && forall t :: t in r.value ==>
                 (Listed(doc, artist, album, t)
                  && ((t.name in doc.attrNames && doc.playcountOf(t.name) == Some(t.playcount))
                      || (Some(t.name) in doc.inputValues && t.playcount == doc.playcountOf(t.name).UnwrapOr(0))))
                 || (table.Ok? && t in table.value))
      && (r.Err? <==> table.Err? && |FirstStrategies(doc, artist, album).tracks| < TableFallbackBelow)
      && (r.Err? ==> r == Err(table.error))
    ensures |FirstStrategies(doc, artist, album).tracks| >= TableFallbackBelow ==>
      forall other :: ExtractedTracks(doc, artist, album, other) == ExtractedTracks(doc, artist, album, table)
  {
    var s1 := FromAttributes(doc, doc.attrNames, artist, album, Extraction([], {}));
    FromAttributesFacts(doc, doc.attrNames, artist, album, Extraction([], {}));
    var s := FirstStrategies(doc, artist, album);
    if |s1.tracks| < MaxTracks {
      FromInputsFacts(doc, doc.inputValues, artist, album, s1);
    }
    if table.Ok? && |s.tracks| < TableFallbackBelow {
      FromTableFacts(table.value, s);
    }
  }

  /**
   * Strategy 1 alone: when it ends below 50 tracks, every non-empty listed
   * name whose play count the page shows is among the extracted tracks.
   */
  lemma ListedNamesKept(doc: TrackListing, artist: string, album: Option<string>,
                        table: Result<seq<Track>, LastFmError>, n: string)
    requires n in doc.attrNames && n != "" && doc.playcountOf(n).Some?
    requires |FromAttributes(doc, doc.attrNames, artist, album, Extraction([], {})).tracks| < MaxTracks
    ensures var r := ExtractedTracks(doc, artist, album, table);
      r.Ok? ==> exists t :: t in r.value && t.name == n
  {
    var s1 := FromAttributes(doc, doc.attrNames, artist, album, Extraction([], {}));
    FromAttributesGrows(doc, doc.attrNames, artist, album, Extraction([], {}));
    FromAttributesComplete(doc, doc.attrNames, artist, album, Extraction([], {}));
    var t :| t in s1.tracks && t.name == n;
    FromInputsGrows(doc, doc.inputValues, artist, album, s1);
    var s := FirstStrategies(doc, artist, album);
    assert t in s.tracks;
    if table.Ok? && |s.tracks| < TableFallbackBelow {
      FromTableGrows(table.value, s);
      assert t in FromTable(table.value, s).tracks;
    }
  }

  lemma {:induction false} FromInputsGrows(doc: TrackListing, values: seq<Option<string>>, artist: string,
                                           album: Option<string>, acc: Extraction)
    ensures acc.tracks <= FromInputs(doc, values, artist, album, acc).tracks
    decreases |values|
  {
    if values != [] && |acc.tracks| < MaxTracks {
      if values[0].Some? && values[0].value != "" && values[0].value !in acc.seen {
        var n := values[0].value;
        FromInputsGrows(doc, values[1..], artist, album,
          Extraction(acc.tracks + [ListedTrack(doc, n, doc.playcountOf(n).UnwrapOr(0), artist, album)], acc.seen + {n}));
      } else {
        FromInputsGrows(doc, values[1..], artist, album, acc);
      }
    }
  }

  lemma {:induction false} FromTableGrows(table: seq<Track>, acc: Extraction)
    ensures acc.tracks <= FromTable(table, acc).tracks
    decreases |table|
  {
    if table != [] {
      var t := table[0];
      if t.name !in acc.seen && |acc.tracks| < MaxTracks {
        FromTableGrows(table[1..], Extraction(acc.tracks + [t], acc.seen + {t.name}));
      } else {
        FromTableGrows(table[1..], acc);
      }
    }
  }
}
