/** The admin dashboard (`src/pages/Admin/Dashboard.jsx`): the movie, booking and user
    lists loaded from the server, the add/edit movie form with its showtime rows, and the
    search box that filters whichever list is shown. Server answers are passed in: a
    `None` response stands for a request that failed or was not `ok`. */
module AdminDashboard {
  import opened Js

  // ---------------------------------------------------------------------------
  // Records as the server sends them; an absent field is `None`

  datatype Director = Director(name: Option<string>, image: Option<string>, description: Option<string>)
  datatype Actor = Actor(name: string, image: string, role: string)

  /** One row of a movie's `showTimes`; `availableSeats` is `None` when it is `NaN`. */
  datatype AdminShowtime = AdminShowtime(date: string, times: seq<string>, cinema: string,
                                         availableSeats: Option<int>)

  /** A movie record; `actors` and `showTimes` are `None` when they are not arrays. */
  datatype AdminMovie = AdminMovie(
    id: string, title: Option<string>, description: Option<string>, image: Option<string>,
    bannerImage: Option<string>, rating: Option<int>, category: Option<string>,
    duration: Option<string>, releaseDate: Option<string>, status: Option<string>,
    isNowPlaying: Option<bool>, isComingSoon: Option<bool>, censorship: Option<string>,
    language: Option<string>, storyline: Option<string>, director: Option<Director>,
    actors: Option<seq<Actor>>, price: Option<string>, showTimes: Option<seq<AdminShowtime>>)

  datatype BookedMovie = BookedMovie(title: Option<string>)
  datatype BookingUser = BookingUser(fullName: Option<string>)

  /** A booking with its populated `movie` and `userId` references. */
  datatype AdminBooking = AdminBooking(id: string, movie: Option<BookedMovie>,
                                       userId: Option<BookingUser>, status: string)

  datatype AdminUser = AdminUser(id: string, fullName: Option<string>, email: Option<string>)

  // ---------------------------------------------------------------------------
  // fetchData

  /** `data.filter(x => x && required(x))` over a JSON array whose entries may be `null`. */
  function KeepRecords<T>(items: seq<Option<T>>, required: T -> bool): (r: seq<T>)
    ensures |r| <= |items|
    ensures forall i :: 0 <= i < |r| ==> required(r[i])
  {
    if items == [] then []
    else
      var rest := KeepRecords(items[1..], required);
      if items[0].Some? && required(items[0].value) then [items[0].value] + rest else rest
  }

  /** The filter keeps exactly the present entries that have the required fields. */
  lemma {:induction false} KeepRecordsMembers<T>(items: seq<Option<T>>, required: T -> bool, x: T)
    ensures x in KeepRecords(items, required) <==> Some(x) in items && required(x)
  {
    if items != [] {
      KeepRecordsMembers(items[1..], required, x);
      assert Some(x) in items <==> Some(x) == items[0] || Some(x) in items[1..];
    }
  }

  /** The filter keeps the order of the kept records. */
  lemma {:induction false} KeepRecordsAppend<T>(a: seq<Option<T>>, b: seq<Option<T>>, required: T -> bool)
    ensures KeepRecords(a + b, required) == KeepRecords(a, required) + KeepRecords(b, required)
  {
    if a == [] {
      assert a + b == b;
    } else {
      KeepRecordsAppend(a[1..], b, required);
      KeepRecordsAppendStep(a, b, required);
    }
  }

  lemma KeepRecordsAppendStep<T>(a: seq<Option<T>>, b: seq<Option<T>>, required: T -> bool)
    requires a != []
    requires KeepRecords(a[1..] + b, required) == KeepRecords(a[1..], required) + KeepRecords(b, required)
    ensures KeepRecords(a + b, required) == KeepRecords(a, required) + KeepRecords(b, required)
  {
    ConsTail(a, b);
    if a[0].Some? && required(a[0].value) {
      KeepRecordsAppendKept(a, b, required);
    } else {
      KeepRecordsAppendDropped(a, b, required);
    }
  }

  lemma KeepRecordsAppendKept<T>(a: seq<Option<T>>, b: seq<Option<T>>, required: T -> bool)
    requires a != [] && a[0].Some? && required(a[0].value)
    requires (a + b)[0] == a[0] && (a + b)[1..] == a[1..] + b
    requires KeepRecords(a[1..] + b, required) == KeepRecords(a[1..], required) + KeepRecords(b, required)
    ensures KeepRecords(a + b, required) == KeepRecords(a, required) + KeepRecords(b, required)
  {
    var v, ka, kb := a[0].value, KeepRecords(a[1..], required), KeepRecords(b, required);
    assert KeepRecords(a + b, required) == [v] + (ka + kb);
    assert [v] + (ka + kb) == ([v] + ka) + kb;
  }

  lemma KeepRecordsAppendDropped<T>(a: seq<Option<T>>, b: seq<Option<T>>, required: T -> bool)
    requires a != [] && !(a[0].Some? && required(a[0].value))
    requires (a + b)[0] == a[0] && (a + b)[1..] == a[1..] + b
    requires KeepRecords(a[1..] + b, required) == KeepRecords(a[1..], required) + KeepRecords(b, required)
    ensures KeepRecords(a + b, required) == KeepRecords(a, required) + KeepRecords(b, required)
  {
  }

  /** `Array.isArray(data) ? data.filter(...) : []`; a non-array answer is `None`. */
  function ListOf<T(!new)>(data: Option<seq<Option<T>>>, required: T -> bool): (r: seq<T>)
    ensures data.None? ==> r == []
    ensures forall x :: x in r <==> data.Some? && Some(x) in data.value && required(x)
  {
    if data.Some? then
      var r := KeepRecords(data.value, required);
      assert forall x :: x in r <==> Some(x) in data.value && required(x) by {
        forall x { KeepRecordsMembers(data.value, required, x); }
      }
      r
    else []
  }

  predicate MovieComplete(m: AdminMovie) { Truthy(m.title) }

  predicate BookingComplete(b: AdminBooking) {
    b.movie.Some? && Truthy(b.movie.value.title) && b.userId.Some? && Truthy(b.userId.value.fullName)
  }

  predicate UserComplete(u: AdminUser) { Truthy(u.fullName) && Truthy(u.email) }

  /** The three parsed answers of `fetchData`. */
  datatype Responses = Responses(movies: Option<seq<Option<AdminMovie>>>,
                                 bookings: Option<seq<Option<AdminBooking>>>,
                                 users: Option<seq<Option<AdminUser>>>)

  datatype Lists = Lists(movies: seq<AdminMovie>, bookings: seq<AdminBooking>, users: seq<AdminUser>)

  /** The lists `fetchData` leaves behind; `None` is a request or a parse that threw, which
      empties all three lists whichever step it was. */
  function Loaded(responses: Option<Responses>): (l: Lists)
    ensures responses.None? ==> l == Lists([], [], [])
    ensures forall i :: 0 <= i < |l.movies| ==> MovieComplete(l.movies[i])
    ensures forall i :: 0 <= i < |l.bookings| ==> BookingComplete(l.bookings[i])
    ensures forall i :: 0 <= i < |l.users| ==> UserComplete(l.users[i])
  {
    if responses.None? then Lists([], [], [])
    else
      var r := responses.value;
      var l := Lists(ListOf(r.movies, MovieComplete), ListOf(r.bookings, BookingComplete),
                     ListOf(r.users, UserComplete));
      assert forall i :: 0 <= i < |l.movies| ==> l.movies[i] in l.movies;
      assert forall i :: 0 <= i < |l.bookings| ==> l.bookings[i] in l.bookings;
      assert forall i :: 0 <= i < |l.users| ==> l.users[i] in l.users;
      l
  }

  /** Exactly the complete movie records of an array answer are loaded. */
  lemma LoadedMoviesAreTheCompleteOnes(r: Responses, m: AdminMovie)
    ensures m in Loaded(Some(r)).movies <==> r.movies.Some? && Some(m) in r.movies.value && Truthy(m.title)
  {
  }

  // ---------------------------------------------------------------------------
  // The movie form

  const NowShowing := "Now Showing"
  const ComingSoon := "Coming Soon"
  const DefaultLanguage := "Tiếng Việt"

  datatype DirectorForm = DirectorForm(name: string, image: string, description: string)

  /** `newMovie`, the state behind both the add and the edit form. */
  datatype MovieForm = MovieForm(
    title: string, description: string, image: string, bannerImage: string, rating: int,
    category: string, duration: string, releaseDate: string, status: string,
    isNowPlaying: bool, isComingSoon: bool, censorship: string, language: string,
    storyline: string, director: DirectorForm, actors: seq<Actor>, price: string,
    showTimes: seq<AdminShowtime>)

  /** The blank form, set on mount, by "Add Movie" and after a successful add or update. */
  const EmptyForm := MovieForm("", "", "", "", 0, "", "", "", NowShowing, true, false, "",
    DefaultLanguage, "", DirectorForm("", "", ""), [], "", [])

  /** `movieToAdd`: the form with both flags recomputed from the status. */
  function ToAdd(f: MovieForm): (r: MovieForm)
    ensures r.isNowPlaying <==> f.status == NowShowing
    ensures r.isComingSoon <==> f.status == ComingSoon
    ensures r.(isNowPlaying := f.isNowPlaying, isComingSoon := f.isComingSoon) == f
  {
    f.(isNowPlaying := f.status == NowShowing, isComingSoon := f.status == ComingSoon)
  }

  /** A movie sent by the add form is never both now showing and coming soon. */
  lemma AddFlagsExclusive(f: MovieForm)
    ensures !(ToAdd(f).isNowPlaying && ToAdd(f).isComingSoon)
  {
  }

  /** `x || 0` for an optional number (0 is the only falsy number modelled). */
  function NumberOrZero(o: Option<int>): (r: int)
    ensures o.Some? ==> r == o.value
    ensures o.None? ==> r == 0
  {
    if o.Some? && o.value != 0 then o.value else 0
  }

  /** `Array.isArray(x) ? x : []`. */
  function ArrayOrEmpty<T>(o: Option<seq<T>>): (r: seq<T>)
    ensures o.Some? ==> r == o.value
    ensures o.None? ==> r == []
  {
    if o.Some? then o.value else []
  }

  /** `movieToEdit.director?.name || ''` and its two siblings. */
  function DirectorFormOf(d: Option<Director>): (r: DirectorForm)
    ensures d.None? ==> r == DirectorForm("", "", "")
    ensures d.Some? ==> r == DirectorForm(OrEmpty(d.value.name), OrEmpty(d.value.image), OrEmpty(d.value.description))
  {
    if d.Some? then DirectorForm(OrEmpty(d.value.name), OrEmpty(d.value.image), OrEmpty(d.value.description))
    else DirectorForm("", "", "")
  }

  /** `date ? date.split('T')[0] : ''`: the date part of an ISO timestamp. */
  function DatePart(o: Option<string>): (r: string)
    ensures 'T' !in r
    ensures Truthy(o) ==> r <= o.value && (|r| < |o.value| ==> o.value[|r|] == 'T')
    ensures !Truthy(o) ==> r == ""
  {
    if Truthy(o) then BeforeFirst(o.value, 'T') else ""
  }

  /** `x || b` on an optional boolean. */
  function BoolOr(o: Option<bool>, b: bool): bool {
    (o.Some? && o.value) || b
  }

  /** `x ?? b` on an optional boolean: the flag when it is present. */
  function BoolOrDefault(o: Option<bool>, b: bool): (r: bool)
    ensures o.Some? ==> r == o.value
    ensures o.None? ==> r == b
  {
    if o.Some? then o.value else b
  }

  /** `handleEditMovie`'s form, each field of the record or its default, with the present
      flags kept (`isNowPlaying ?? true`); `EditFormAsWritten` is the form as written. */
  function EditForm(m: AdminMovie): (f: MovieForm)
    ensures 'T' !in f.releaseDate
    ensures f.status == OrDefault(m.status, NowShowing) && f.language == OrDefault(m.language, DefaultLanguage)
    ensures f.isNowPlaying == BoolOrDefault(m.isNowPlaying, true)
    ensures f.isComingSoon == BoolOr(m.isComingSoon, false)
  {
    MovieForm(OrEmpty(m.title), OrEmpty(m.description), OrEmpty(m.image), OrEmpty(m.bannerImage),
      NumberOrZero(m.rating), OrEmpty(m.category), OrEmpty(m.duration), DatePart(m.releaseDate),
      OrDefault(m.status, NowShowing), BoolOrDefault(m.isNowPlaying, true),
      BoolOr(m.isComingSoon, false), OrEmpty(m.censorship), OrDefault(m.language, DefaultLanguage),
      OrEmpty(m.storyline), DirectorFormOf(m.director), ArrayOrEmpty(m.actors), OrEmpty(m.price),
      ArrayOrEmpty(m.showTimes))
  }

  /** The form `handleEditMovie` builds as written: `isNowPlaying: movieToEdit.isNowPlaying || true`. */
  function EditFormAsWritten(m: AdminMovie): (f: MovieForm)
    ensures f.(isNowPlaying := EditForm(m).isNowPlaying) == EditForm(m)
  {
    EditForm(m).(isNowPlaying := BoolOr(m.isNowPlaying, true))
  }

  /** As written, the edit form is always marked now showing, whatever the record says. */
  lemma AsWrittenAlwaysNowPlaying(m: AdminMovie)
    ensures EditFormAsWritten(m).isNowPlaying
  {
  }

  /** So editing a coming-soon movie sends both flags set, which the add form never does. */
  lemma AsWrittenComingSoonSendsBothFlags()
    ensures var m := AdminMovie("m1", Some("Dune"), None, None, None, None, None, None, None,
      Some(ComingSoon), Some(false), Some(true), None, None, None, None, None, None, None);
      EditFormAsWritten(m).isNowPlaying && EditFormAsWritten(m).isComingSoon
  {
  }

  /** The corrected form keeps both flags of a record that has them. */
  lemma EditFormKeepsFlags(m: AdminMovie)
    requires m.isNowPlaying.Some? && m.isComingSoon.Some?
    ensures EditForm(m).isNowPlaying == m.isNowPlaying.value
    ensures EditForm(m).isComingSoon == m.isComingSoon.value
  {
  }

  /** Editing a movie saved by the add form keeps its flags exclusive. */
  lemma EditOfAddedKeepsFlagsExclusive(m: AdminMovie)
    requires m.isNowPlaying.Some? && m.isComingSoon.Some?
    requires !(m.isNowPlaying.value && m.isComingSoon.value)
    ensures !(EditForm(m).isNowPlaying && EditForm(m).isComingSoon)
  {
    EditFormKeepsFlags(m);
  }

  /** The movie a form would describe, with every field present. */
  function RecordOf(id: string, f: MovieForm): AdminMovie {
    AdminMovie(id, Some(f.title), Some(f.description), Some(f.image), Some(f.bannerImage),
      Some(f.rating), Some(f.category), Some(f.duration), Some(f.releaseDate), Some(f.status),
      Some(f.isNowPlaying), Some(f.isComingSoon), Some(f.censorship), Some(f.language),
      Some(f.storyline),
      Some(Director(Some(f.director.name), Some(f.director.image), Some(f.director.description))),
      Some(f.actors), Some(f.price), Some(f.showTimes))
  }

  /** Saving a form and editing the saved record gives the form back, provided its status
      and language are filled in and its release date is a bare date. */
  lemma EditFormOfRecord(id: string, f: MovieForm)
    requires f.status != "" && f.language != "" && 'T' !in f.releaseDate
    ensures EditForm(RecordOf(id, f)) == f
  {
    if f.releaseDate != "" {
      BeforeFirstWithout(f.releaseDate, 'T');
    }
  }

  lemma {:induction false} BeforeFirstWithout(s: string, sep: char)
    requires sep !in s
    ensures BeforeFirst(s, sep) == s
  {
    if s != [] {
      BeforeFirstWithout(s[1..], sep);
    }
  }

  /** A record with nothing but its id opens the same blank form as "Add Movie". */
  lemma EditFormOfBlankRecord(id: string)
    ensures var m := AdminMovie(id, None, None, None, None, None, None, None, None, None, None, None,
      None, None, None, None, None, None, None);
      EditForm(m) == EmptyForm && EditFormAsWritten(m) == EmptyForm
  {
  }

  // ---------------------------------------------------------------------------
  // List edits after a successful request

  predicate MovieHasId(id: string, m: AdminMovie) { m.id == id }
  predicate MovieIdIsNot(id: string, m: AdminMovie) { m.id != id }
  predicate BookingHasId(id: string, b: AdminBooking) { b.id == id }

  /** `movies.filter(movie => movie._id !== movieId)`. */
  function DeleteMovie(movies: seq<AdminMovie>, movieId: string): (r: seq<AdminMovie>)
    ensures forall m :: m in r <==> m in movies && m.id != movieId
  {
    Filter(movies, (m: AdminMovie) => MovieIdIsNot(movieId, m))
  }

  /** A delete keeps the other movies in their order. */
  lemma DeleteMovieKeepsOrder(a: seq<AdminMovie>, b: seq<AdminMovie>, movieId: string)
    ensures DeleteMovie(a + b, movieId) == DeleteMovie(a, movieId) + DeleteMovie(b, movieId)
  {
    FilterAppend(a, b, (m: AdminMovie) => MovieIdIsNot(movieId, m));
  }

  /** Deleting an id no movie has changes nothing. */
  lemma DeleteMovieAbsent(movies: seq<AdminMovie>, movieId: string)
    requires forall i :: 0 <= i < |movies| ==> movies[i].id != movieId
    ensures DeleteMovie(movies, movieId) == movies
  {
    FilterAll(movies, (m: AdminMovie) => MovieIdIsNot(movieId, m));
  }

  /** `xs.map(x => isTarget(x) ? updated : x)`. */
  function ReplaceWhere<T>(xs: seq<T>, isTarget: T -> bool, updated: T): (r: seq<T>)
    ensures |r| == |xs|
    ensures forall i :: 0 <= i < |xs| ==> r[i] == if isTarget(xs[i]) then updated else xs[i]
  {
    if xs == [] then []
    else [if isTarget(xs[0]) then updated else xs[0]] + ReplaceWhere(xs[1..], isTarget, updated)
  }

  /** Every entry of the result is either the new value or an untouched old entry. */
  lemma ReplaceWhereEntries<T>(xs: seq<T>, isTarget: T -> bool, updated: T, y: T)
    requires y in ReplaceWhere(xs, isTarget, updated)
    ensures y == updated || (y in xs && !isTarget(y))
  {
    var r := ReplaceWhere(xs, isTarget, updated);
    var k :| 0 <= k < |r| && r[k] == y;
  }

  /** Without a matching entry the list is unchanged. */
  lemma ReplaceWhereAbsent<T>(xs: seq<T>, isTarget: T -> bool, updated: T)
    requires forall i :: 0 <= i < |xs| ==> !isTarget(xs[i])
    ensures ReplaceWhere(xs, isTarget, updated) == xs
  {
  }

  /** Replaying the same answer changes nothing more. */
  lemma ReplaceWhereIdempotent<T>(xs: seq<T>, isTarget: T -> bool, updated: T)
    ensures ReplaceWhere(ReplaceWhere(xs, isTarget, updated), isTarget, updated) == ReplaceWhere(xs, isTarget, updated)
  {
  }

  /** `bookings.map(booking => booking._id === bookingId ? updatedBooking : booking)`. */
  function UpdateBooking(bookings: seq<AdminBooking>, bookingId: string, updated: AdminBooking): (r: seq<AdminBooking>)
    ensures |r| == |bookings|
    ensures forall i :: 0 <= i < |bookings| ==>
      r[i] == if bookings[i].id == bookingId then updated else bookings[i]
  {
    ReplaceWhere(bookings, (b: AdminBooking) => BookingHasId(bookingId, b), updated)
  }

  /** `movies.map(movie => movie._id === selectedMovie._id ? updatedMovie : movie)`. */
  function UpdateMovie(movies: seq<AdminMovie>, movieId: string, updated: AdminMovie): (r: seq<AdminMovie>)
    ensures |r| == |movies|
    ensures forall i :: 0 <= i < |movies| ==>
      r[i] == if movies[i].id == movieId then updated else movies[i]
  {
    ReplaceWhere(movies, (m: AdminMovie) => MovieHasId(movieId, m), updated)
  }

  // ---------------------------------------------------------------------------
  // Search

  /** `x?.toLowerCase()?.includes(term.toLowerCase()) || false`: a present field, even an
      empty one, whose lowercased text contains the lowercased term. */
  predicate FieldHas(f: Option<string>, term: string) {
    f.Some? && Includes(Lower(f.value), Lower(term))
  }

  predicate MovieListed(term: string, m: AdminMovie) { FieldHas(m.title, term) }

  predicate BookingListed(term: string, b: AdminBooking) {
    (b.movie.Some? && FieldHas(b.movie.value.title, term))
    || (b.userId.Some? && FieldHas(b.userId.value.fullName, term))
  }

  predicate UserListed(term: string, u: AdminUser) { FieldHas(u.fullName, term) || FieldHas(u.email, term) }

  /** The rows of the movies table. */
  function VisibleMovies(movies: seq<AdminMovie>, term: string): (r: seq<AdminMovie>)
    ensures forall m :: m in r <==> m in movies && m.title.Some? && Includes(Lower(m.title.value), Lower(term))
  {
    Filter(movies, (m: AdminMovie) => MovieListed(term, m))
  }

  function VisibleBookings(bookings: seq<AdminBooking>, term: string): (r: seq<AdminBooking>)
    ensures forall b :: b in r <==> b in bookings && BookingListed(term, b)
  {
    Filter(bookings, (b: AdminBooking) => BookingListed(term, b))
  }

  function VisibleUsers(users: seq<AdminUser>, term: string): (r: seq<AdminUser>)
    ensures forall u :: u in r <==> u in users && UserListed(term, u)
  {
    Filter(users, (u: AdminUser) => UserListed(term, u))
  }

  lemma FieldHasEmptyTerm(f: Option<string>)
    ensures FieldHas(f, "") <==> f.Some?
  {
    if f.Some? { IncludesEmpty(Lower(f.value)); }
  }

  /** An empty search term lists every loaded movie, booking and user. */
  lemma EmptyTermListsEverything(responses: Option<Responses>)
    ensures var l := Loaded(responses);
      && VisibleMovies(l.movies, "") == l.movies
      && VisibleBookings(l.bookings, "") == l.bookings
      && VisibleUsers(l.users, "") == l.users
  {
    var l := Loaded(responses);
    forall i | 0 <= i < |l.movies| ensures MovieListed("", l.movies[i]) {
      FieldHasEmptyTerm(l.movies[i].title);
    }
    forall i | 0 <= i < |l.bookings| ensures BookingListed("", l.bookings[i]) {
      FieldHasEmptyTerm(l.bookings[i].movie.value.title);
    }
    forall i | 0 <= i < |l.users| ensures UserListed("", l.users[i]) {
      FieldHasEmptyTerm(l.users[i].fullName);
    }
    FilterAll(l.movies, (m: AdminMovie) => MovieListed("", m));
    FilterAll(l.bookings, (b: AdminBooking) => BookingListed("", b));
    FilterAll(l.users, (u: AdminUser) => UserListed("", u));
  }

  /** The case of the term does not matter. */
  lemma SearchIgnoresTermCase(movies: seq<AdminMovie>, term: string)
    ensures VisibleMovies(movies, Lower(term)) == VisibleMovies(movies, term)
  {
    LowerIdempotent(term);
    FilterCongruent(movies, (m: AdminMovie) => MovieListed(Lower(term), m), (m: AdminMovie) => MovieListed(term, m));
  }

  // ---------------------------------------------------------------------------
  // Showtime rows of the form

  /** `s.split(',').map(t => t.trim())` applied to the pieces. */
  function TrimEach(pieces: seq<string>): (r: seq<string>)
    ensures |r| == |pieces|
    ensures forall i :: 0 <= i < |pieces| ==> r[i] == Trim(pieces[i])
  {
    if pieces == [] then [] else [Trim(pieces[0])] + TrimEach(pieces[1..])
  }

  /** The times typed into a row's text box. */
  function ParseTimes(s: string): (r: seq<string>)
    ensures |r| == |Split(s, ',')| && |r| >= 1
    ensures forall i :: 0 <= i < |r| ==> ',' !in r[i] && Trimmed(r[i])
  {
    var pieces := Split(s, ',');
    var r := TrimEach(pieces);
    forall i | 0 <= i < |r| ensures ',' !in r[i] && Trimmed(r[i]) {
      TrimKeepsOut(pieces[i], ',');
    }
    r
  }

  /** Trimming adds no character, and leaves no whitespace at either end. */
  lemma TrimKeepsOut(p: string, c: char)
    requires c !in p
    ensures c !in Trim(p) && Trimmed(Trim(p))
  {
    var k, t := TrimOffset(p), Trim(p);
    assert t == p[k..k + |t|];
    assert forall x :: x in t ==> x in p;
  }

  /** Neither starts nor ends with whitespace. */
  predicate Trimmed(t: string) {
    t == [] || (!IsWhitespace(t[0]) && !IsWhitespace(t[|t| - 1]))
  }

  /** `showtime.times.join(', ')`, the text the box shows. */
  function TimesText(times: seq<string>): string {
    JoinWith(times, ", ")
  }

  lemma {:induction false} TrimStartPadded(w: string, t: string)
    requires AllWhitespace(w) && (t == [] || !IsWhitespace(t[0]))
    ensures TrimStart(w + t) == t
  {
    if w == [] {
      assert w + t == t;
    } else {
      var s := w + t;
      assert s[0] == w[0] && IsWhitespace(s[0]);
      assert s[1..] == w[1..] + t;
      TrimStartPadded(w[1..], t);
    }
  }

  lemma TrimPadded(w: string, t: string)
    requires AllWhitespace(w) && Trimmed(t)
    ensures Trim(w + t) == t
  {
    TrimStartPadded(w, t);
    assert TrimEnd(t) == t;
  }

  /** The first comma of the shown text ends the first time. */
  lemma SplitFirstTime(w: string, t: string, rest: string)
    requires ',' !in w && ',' !in t
    ensures Split(w + (t + ", " + rest), ',') == [w + t] + Split(" " + rest, ',')
  {
    assert w + (t + ", " + rest) == (w + t) + [','] + (" " + rest);
    SplitPrefix(w + t, " " + rest, ',');
  }

  lemma TrimEachCons(a: string, rest: seq<string>)
    ensures TrimEach([a] + rest) == [Trim(a)] + TrimEach(rest)
  {
    assert ([a] + rest)[1..] == rest;
  }

  /** Reading back the shown times after whitespace `w`. */
  lemma {:induction false} ParsePadded(w: string, times: seq<string>)
    requires AllWhitespace(w) && ',' !in w && |times| >= 1
    requires forall i :: 0 <= i < |times| ==> ',' !in times[i] && Trimmed(times[i])
    ensures TrimEach(Split(w + TimesText(times), ',')) == times
    decreases |times|
  {
    HeadTail(times);
    if |times| == 1 {
      ParsePaddedSingle(w, times[0]);
    } else {
      assert AllWhitespace(" ") && ',' !in " ";
      ParsePadded(" ", times[1..]);
      TimesTextCons(times);
      ParsePaddedStep(w, times[0], TimesText(times[1..]), times[1..]);
    }
  }

  lemma ParsePaddedStep(w: string, t: string, rest: string, tail: seq<string>)
    requires AllWhitespace(w) && ',' !in w && ',' !in t && Trimmed(t)
    requires TrimEach(Split(" " + rest, ',')) == tail
    ensures TrimEach(Split(w + (t + ", " + rest), ',')) == [t] + tail
  {
    SplitFirstTime(w, t, rest);
    TrimPadded(w, t);
    TrimEachCons(w + t, Split(" " + rest, ','));
  }

  lemma TimesTextCons(times: seq<string>)
    requires |times| >= 2
    ensures TimesText(times) == times[0] + ", " + TimesText(times[1..])
  {
  }

  lemma HeadTail<T>(s: seq<T>)
    requires s != []
    ensures s == [s[0]] + s[1..] && (|s| == 1 ==> s == [s[0]])
  {
  }

  lemma ParsePaddedSingle(w: string, t: string)
    requires AllWhitespace(w) && ',' !in w && ',' !in t && Trimmed(t)
    ensures TrimEach(Split(w + TimesText([t]), ',')) == [t]
  {
    assert TimesText([t]) == t;
    assert ',' !in w + t;
    TrimPadded(w, t);
  }

  /** Leaving the text box as shown keeps a row's times, when it has some and none of them
      holds a comma or surrounding whitespace (otherwise the box cannot show them as they are). */
  lemma TimesRoundTrip(times: seq<string>)
    requires |times| >= 1
    requires forall i :: 0 <= i < |times| ==> ',' !in times[i] && Trimmed(times[i])
    ensures ParseTimes(TimesText(times)) == times
  {
    ParsePadded("", times);
    assert "" + TimesText(times) == TimesText(times);
  }

  /** `showtime.availableSeats || 100`, the number the seats box shows. */
  function SeatsShown(s: AdminShowtime): (n: int)
    ensures n != 0
    ensures s.availableSeats.Some? && s.availableSeats.value != 0 ==> n == s.availableSeats.value
  {
    if s.availableSeats.Some? && s.availableSeats.value != 0 then s.availableSeats.value else 100
  }

  /** Typing a positive count into the seats box shows that count. */
  lemma SeatsTypedAreShown(s: AdminShowtime, n: nat)
    requires n > 0
    ensures SeatsShown(s.(availableSeats := ParseInt(NatToString(n)))) == n
  {
    ParseIntNatToString(n);
  }

  /** `showTimes.filter((_, i) => i !== index)`. */
  function RemoveAt<T>(xs: seq<T>, index: nat): (r: seq<T>)
    ensures index >= |xs| ==> r == xs
    ensures index < |xs| ==> (
      && |r| == |xs| - 1
      && (forall i :: 0 <= i < index ==> r[i] == xs[i])
      && (forall i :: index <= i < |r| ==> r[i] == xs[i + 1]))
  {
    if xs == [] then []
    else if index == 0 then xs[1..]
    else [xs[0]] + RemoveAt(xs[1..], index - 1)
  }

  /** Removing row `index` takes out exactly that row. */
  lemma RemoveAtMultiset<T>(xs: seq<T>, index: nat)
    requires index < |xs|
    ensures multiset(RemoveAt(xs, index)) + multiset{xs[index]} == multiset(xs)
  {
    RemoveAtSlices(xs, index);
    MultisetWithout(xs, index);
  }

  lemma MultisetWithout<T>(xs: seq<T>, index: nat)
    requires index < |xs|
    ensures multiset(xs[..index] + xs[index + 1..]) + multiset{xs[index]} == multiset(xs)
  {
    assert xs[index..] == [xs[index]] + xs[index + 1..];
    assert xs == xs[..index] + xs[index..];
  }

  lemma RemoveAtSlices<T>(xs: seq<T>, index: nat)
    requires index < |xs|
    ensures RemoveAt(xs, index) == xs[..index] + xs[index + 1..]
  {
    var r, s := RemoveAt(xs, index), xs[..index] + xs[index + 1..];
    assert |r| == |s|;
    forall i | 0 <= i < |r| ensures r[i] == s[i] {
      if i < index { assert s[i] == xs[i]; } else { assert s[i] == xs[i + 1]; }
    }
  }

  /** The three text boxes of an actor row. */
  datatype ActorField = ActorName | ActorImage | ActorRole

  /** `{ ...actor, [field]: value }`: the named field takes the value, the other two stay. */
  function WithActorField(a: Actor, field: ActorField, value: string): (r: Actor)
    ensures field == ActorName ==> r == Actor(value, a.image, a.role)
    ensures field == ActorImage ==> r == Actor(a.name, value, a.role)
    ensures field == ActorRole ==> r == Actor(a.name, a.image, value)
  {
    match field
    case ActorName => a.(name := value)
    case ActorImage => a.(image := value)
    case ActorRole => a.(role := value)
  }

  /** The row "Add Showtime" appends: today's date, no times, no cinema, 100 seats. */
  function NewShowtime(isoNow: string): (s: AdminShowtime)
    ensures 'T' !in s.date && s.date <= isoNow
    ensures s.times == [] && s.cinema == "" && SeatsShown(s) == 100
  {
    AdminShowtime(BeforeFirst(isoNow, 'T'), [], "", Some(100))
  }

  /** Removing the row just added restores the rows. */
  lemma RemoveAddedShowtime(rows: seq<AdminShowtime>, isoNow: string)
    ensures RemoveAt(rows + [NewShowtime(isoNow)], |rows|) == rows
  {
  }

  // ---------------------------------------------------------------------------
  // The component

  class Dashboard {
    var activeTab: string
    var movies: seq<AdminMovie>
    var users: seq<AdminUser>
    var bookings: seq<AdminBooking>
    var searchTerm: string
    var isLoading: bool
    var showAddMovie: bool
    var showEditMovie: bool
    var selectedMovie: Option<AdminMovie>
    var newMovie: MovieForm

    constructor()
      ensures activeTab == "movies" && movies == [] && users == [] && bookings == []
      ensures searchTerm == "" && isLoading && !showAddMovie && !showEditMovie
      ensures selectedMovie == None && newMovie == EmptyForm
    {
      activeTab := "movies";
      movies := [];
      users := [];
      bookings := [];
      searchTerm := "";
      isLoading := true;
      showAddMovie := false;
      showEditMovie := false;
      selectedMovie := None;
      newMovie := EmptyForm;
    }

    /** `fetchData`, run to its end. */
    method FetchData(responses: Option<Responses>)
      modifies this`isLoading, this`movies, this`bookings, this`users
      ensures Lists(movies, bookings, users) == Loaded(responses)
      ensures !isLoading
    {
      isLoading := true;
      if responses.None? {
        movies := [];
        bookings := [];
        users := [];
      } else {
        var r := responses.value;
        movies := ListOf(r.movies, MovieComplete);
        bookings := ListOf(r.bookings, BookingComplete);
        users := ListOf(r.users, UserComplete);
      }
      isLoading := false;
    }

    /** "Add Movie": the blank add form. */
    method OpenAddMovie()
      modifies this`showAddMovie, this`showEditMovie, this`selectedMovie, this`newMovie
      ensures showAddMovie && !showEditMovie && selectedMovie == None && newMovie == EmptyForm
    {
      showAddMovie := true;
      showEditMovie := false;
      selectedMovie := None;
      newMovie := EmptyForm;
    }

    /** `handleAddMovie`: `sent` is the body posted; the returned movie is appended and the
        form closed and cleared, or on a failed request nothing changes. */
    method HandleAddMovie(response: Option<AdminMovie>) returns (sent: MovieForm)
      modifies this`movies, this`showAddMovie, this`newMovie
      ensures sent == ToAdd(old(newMovie))
      ensures response.Some? ==> movies == old(movies) + [response.value] && !showAddMovie && newMovie == EmptyForm
      ensures response.None? ==> movies == old(movies) && showAddMovie == old(showAddMovie) && newMovie == old(newMovie)
    {
      sent := newMovie.(isNowPlaying := newMovie.status == NowShowing,
                        isComingSoon := newMovie.status == ComingSoon);
      if response.Some? {
        movies := movies + [response.value];
        showAddMovie := false;
        newMovie := EmptyForm;
      }
    }

    /** `handleDeleteMovie`: only a confirmed delete that the server accepts changes the list. */
    method HandleDeleteMovie(movieId: string, confirmed: bool, ok: bool)
      modifies this`movies
      ensures confirmed && ok ==> movies == DeleteMovie(old(movies), movieId)
      ensures !(confirmed && ok) ==> movies == old(movies)
    {
      if confirmed && ok {
        movies := DeleteMovie(movies, movieId);
      }
    }

    /** `handleUpdateBookingStatus`. */
    method HandleUpdateBookingStatus(bookingId: string, response: Option<AdminBooking>)
      modifies this`bookings
      ensures response.Some? ==> bookings == UpdateBooking(old(bookings), bookingId, response.value)
      ensures response.None? ==> bookings == old(bookings)
    {
      if response.Some? {
        bookings := UpdateBooking(bookings, bookingId, response.value);
      }
    }

    /** `handleEditMovie`: the first movie with the id fills the edit form (with the
        corrected `isNowPlaying`); an unknown id does nothing. */
    method HandleEditMovie(movieId: string)
      modifies this`selectedMovie, this`newMovie, this`showEditMovie, this`showAddMovie
      ensures var found := Find(old(movies), (m: AdminMovie) => MovieHasId(movieId, m));
        && (found.Some? ==> selectedMovie == found && newMovie == EditForm(found.value)
                            && showEditMovie && !showAddMovie)
        && (found.None? ==> selectedMovie == old(selectedMovie) && newMovie == old(newMovie)
                            && showEditMovie == old(showEditMovie) && showAddMovie == old(showAddMovie))
    {
      var movieToEdit := Find(movies, (m: AdminMovie) => MovieHasId(movieId, m));
      if movieToEdit.Some? {
        selectedMovie := movieToEdit;
        newMovie := EditForm(movieToEdit.value);
        showEditMovie := true;
        showAddMovie := false;
      }
    }

    /** `handleUpdateMovie`: `sent` is the form posted as it stands, flags included. With no
        movie selected, `selectedMovie._id` throws and nothing is sent or changed. */
    method HandleUpdateMovie(response: Option<AdminMovie>) returns (sent: Option<MovieForm>)
      modifies this`movies, this`showEditMovie, this`selectedMovie, this`newMovie
      ensures old(selectedMovie).None? ==> (
        && sent.None? && movies == old(movies) && newMovie == old(newMovie)
        && selectedMovie == old(selectedMovie) && showEditMovie == old(showEditMovie))
      ensures old(selectedMovie).Some? ==> sent == Some(old(newMovie))
      ensures old(selectedMovie).Some? && response.Some? ==>
        && movies == UpdateMovie(old(movies), old(selectedMovie).value.id, response.value)
        && !showEditMovie && selectedMovie.None? && newMovie == EmptyForm
      ensures old(selectedMovie).Some? && response.None? ==> (
        && movies == old(movies) && newMovie == old(newMovie) && selectedMovie == old(selectedMovie)
        && showEditMovie == old(showEditMovie))
    {
      if selectedMovie.None? {
        return None;
      }
      sent := Some(newMovie);
      if response.Some? {
        movies := UpdateMovie(movies, selectedMovie.value.id, response.value);
        showEditMovie := false;
        selectedMovie := None;
        newMovie := EmptyForm;
      }
    }

    /** The add form's Cancel button closes the form; what was typed stays in `newMovie`. */
    method CancelAdd()
      modifies this`showAddMovie
      ensures !showAddMovie
    {
      showAddMovie := false;
    }

    /** The edit form's Cancel button closes the form and forgets the selected movie, so a
        later update sends nothing. */
    method CancelEdit()
      modifies this`showEditMovie, this`selectedMovie
      ensures !showEditMovie && selectedMovie.None?
    {
      showEditMovie := false;
      selectedMovie := None;
    }

    /** The add form's status select: both flags follow the chosen status. */
    method SetAddFormStatus(status: string)
      modifies this`newMovie
      ensures newMovie == ToAdd(old(newMovie).(status := status))
      ensures !(newMovie.isNowPlaying && newMovie.isComingSoon)
    {
      newMovie := newMovie.(status := status, isNowPlaying := status == NowShowing,
                            isComingSoon := status == ComingSoon);
      AddFlagsExclusive(newMovie);
    }

    /** The edit form's status select: only the status changes, the flags stay. */
    method SetStatus(status: string)
      modifies this`newMovie
      ensures newMovie == old(newMovie).(status := status)
    {
      newMovie := newMovie.(status := status);
    }

    /** Typing into actor row `index`: one field of that actor changes. */
    method SetActorField(index: nat, field: ActorField, value: string)
      requires index < |newMovie.actors|
      modifies this`newMovie
      ensures newMovie == old(newMovie).(actors := old(newMovie).actors[index := WithActorField(old(newMovie).actors[index], field, value)])
    {
      var updatedActors := newMovie.actors[index := WithActorField(newMovie.actors[index], field, value)];
      newMovie := newMovie.(actors := updatedActors);
    }

    /** Picking a date in row `index`. */
    method SetShowtimeDate(index: nat, date: string)
      requires index < |newMovie.showTimes|
      modifies this`newMovie
      ensures newMovie == old(newMovie).(showTimes := old(newMovie).showTimes[index := old(newMovie).showTimes[index].(date := date)])
    {
      var updatedShowtimes := newMovie.showTimes[index := newMovie.showTimes[index].(date := date)];
      newMovie := newMovie.(showTimes := updatedShowtimes);
    }

    /** Typing into row `index`'s cinema box. */
    method SetShowtimeCinema(index: nat, cinema: string)
      requires index < |newMovie.showTimes|
      modifies this`newMovie
      ensures newMovie == old(newMovie).(showTimes := old(newMovie).showTimes[index := old(newMovie).showTimes[index].(cinema := cinema)])
    {
      var updatedShowtimes := newMovie.showTimes[index := newMovie.showTimes[index].(cinema := cinema)];
      newMovie := newMovie.(showTimes := updatedShowtimes);
    }

    /** Typing into row `index`'s times box. */
    method SetShowtimeTimes(index: nat, text: string)
      requires index < |newMovie.showTimes|
      modifies this`newMovie
      ensures newMovie == old(newMovie).(showTimes := old(newMovie).showTimes[index := old(newMovie).showTimes[index].(times := ParseTimes(text))])
    {
      var updatedShowtimes := newMovie.showTimes[index := newMovie.showTimes[index].(times := ParseTimes(text))];
      newMovie := newMovie.(showTimes := updatedShowtimes);
    }

    /** Typing into row `index`'s seats box: `parseInt` of the text. */
    method SetShowtimeSeats(index: nat, text: string)
      requires index < |newMovie.showTimes|
      modifies this`newMovie
      ensures newMovie == old(newMovie).(showTimes := old(newMovie).showTimes[index := old(newMovie).showTimes[index].(availableSeats := ParseInt(text))])
    {
      var updatedShowtimes := newMovie.showTimes;
      updatedShowtimes := updatedShowtimes[index := updatedShowtimes[index].(availableSeats := ParseInt(text))];
      newMovie := newMovie.(showTimes := updatedShowtimes);
    }

    /** Row `index`'s delete button. */
    method RemoveShowtime(index: nat)
      requires index < |newMovie.showTimes|
      modifies this`newMovie
      ensures newMovie == old(newMovie).(showTimes := RemoveAt(old(newMovie).showTimes, index))
      ensures |newMovie.showTimes| == |old(newMovie).showTimes| - 1
    {
      newMovie := newMovie.(showTimes := RemoveAt(newMovie.showTimes, index));
    }

    /** "Add Showtime", with `new Date().toISOString()` passed in. */
    method AddShowtime(isoNow: string)
      modifies this`newMovie
      ensures newMovie == old(newMovie).(showTimes := old(newMovie).showTimes + [NewShowtime(isoNow)])
    {
      newMovie := newMovie.(showTimes := newMovie.showTimes + [NewShowtime(isoNow)]);
    }

    /** "Add Actor": a blank actor row. */
    method AddActor()
      modifies this`newMovie
      ensures newMovie == old(newMovie).(actors := old(newMovie).actors + [Actor("", "", "")])
    {
      newMovie := newMovie.(actors := newMovie.actors + [Actor("", "", "")]);
    }

    method SetSearchTerm(term: string)
      modifies this`searchTerm
      ensures searchTerm == term
    {
      searchTerm := term;
    }

    method SetTab(tab: string)
      modifies this`activeTab
      ensures activeTab == tab
    {
      activeTab := tab;
    }
  }
}
