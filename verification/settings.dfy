/** The site settings: a singleton record that the update handler creates
    on first use and merges into afterwards, and that reset deletes. */
module Settings {
  import opened Common

  /** The schema default of `siteName`. */
  const DefaultSiteName: string := "Real Estate Hub"

  /** A settings record; `contactEmail` has no default and may be unset. */
  datatype Setting = Setting(siteName: string, contactEmail: Option<string>, maintenanceMode: bool)

  /** The request body of an update; an absent field is `None`. */
  datatype SettingsBody = SettingsBody(
    siteName: Option<string>,
    contactEmail: Option<string>,
    maintenanceMode: Option<bool>)

  /** A new record built from the body: every supplied field is stored as
      given (even an empty string or `false`), every absent one takes its
      schema default. */
  function Fresh(b: SettingsBody): (s: Setting)
    ensures b.siteName.None? ==> s.siteName == DefaultSiteName
    ensures b.siteName.Some? ==> s.siteName == b.siteName.value
    ensures s.contactEmail == b.contactEmail
    ensures s.maintenanceMode <==> b.maintenanceMode == Some(true)
  {
    Setting(
      if b.siteName.Some? then b.siteName.value else DefaultSiteName,
      b.contactEmail,
      if b.maintenanceMode.Some? then b.maintenanceMode.value else false)
  }

  /** The body merged into an existing record: a name or e-mail replaces
      the stored one only when it is a non-empty string, while the
      maintenance flag is replaced whenever it is supplied, `false`
      included. */
  function Merge(s: Setting, b: SettingsBody): (r: Setting)
    ensures Truthy(b.siteName) ==> r.siteName == b.siteName.value
    ensures !Truthy(b.siteName) ==> r.siteName == s.siteName
    ensures Truthy(b.contactEmail) ==> r.contactEmail == b.contactEmail
    ensures !Truthy(b.contactEmail) ==> r.contactEmail == s.contactEmail
    ensures b.maintenanceMode.Some? ==> r.maintenanceMode == b.maintenanceMode.value
    ensures b.maintenanceMode.None? ==> r.maintenanceMode == s.maintenanceMode
  {
    Setting(
      OrElse(b.siteName, s.siteName),
      if Truthy(b.contactEmail) then b.contactEmail else s.contactEmail,
      if b.maintenanceMode.Some? then b.maintenanceMode.value else s.maintenanceMode)
  }

  /** The collection after an update: the first record (the one
      `findOne()` returns) is merged into, or a record is created when the
      collection is empty; any further records stay as they are. */
  function Upserted(rows: seq<Setting>, b: SettingsBody): (r: seq<Setting>)
    ensures |r| == if rows == [] then 1 else |rows|
    ensures rows == [] ==> r == [Fresh(b)]
    ensures rows != [] ==> r[0] == Merge(rows[0], b) && r[1..] == rows[1..]
  {
    if rows == [] then [Fresh(b)] else [Merge(rows[0], b)] + rows[1..]
  }

  /** Merging the same body twice gives the record merging it once gives. */
  lemma MergeIdempotent(s: Setting, b: SettingsBody)
    ensures Merge(Merge(s, b), b) == Merge(s, b)
  {
  }

  /** A record freshly built from a body already reflects that body. */
  lemma MergeIntoFresh(b: SettingsBody)
    ensures Merge(Fresh(b), b) == Fresh(b)
  {
  }

  /** Updating twice with the same body leaves the collection as updating
      once does, whether or not a record existed. */
  lemma {:induction false} UpsertIdempotent(rows: seq<Setting>, b: SettingsBody)
    ensures Upserted(Upserted(rows, b), b) == Upserted(rows, b)
  {
    if rows == [] {
      MergeIntoFresh(b);
    } else {
      MergeIdempotent(rows[0], b);
    }
  }

  /** From zero or one record, an update leaves exactly one. */
  lemma UpsertLeavesOne(rows: seq<Setting>, b: SettingsBody)
    requires |rows| <= 1
    ensures |Upserted(rows, b)| == 1
  {
  }

  /** The settings collection. */
  class SettingsStore {
    var rows: seq<Setting>

    constructor ()
      ensures rows == []
    {
      rows := [];
    }

    /** `getSettings`: 404 when there is no record, otherwise the first. */
    function Get(): (r: Result<Setting>)
      reads this
      ensures r.Err? <==> rows == []
      ensures r.Err? ==> r.error == NotFound
      ensures r.Ok? ==> r.value == rows[0]
    {
      if rows == [] then Err(NotFound) else Ok(rows[0])
    }

    /** `updateSettings`: creates the record or assigns its three fields
        in turn, then saves it; answers the saved record. */
    method Update(b: SettingsBody) returns (saved: Setting)
      modifies this
      ensures rows == Upserted(old(rows), b)
      ensures Get() == Ok(saved)
    {
      if rows == [] {
        saved := Fresh(b);
        rows := [saved];
      } else {
        var s := rows[0];
        s := s.(siteName := OrElse(b.siteName, s.siteName));
        if Truthy(b.contactEmail) {
          s := s.(contactEmail := b.contactEmail);
        }
        if b.maintenanceMode.Some? {
          s := s.(maintenanceMode := b.maintenanceMode.value);
        }
        saved := s;
        rows := [s] + rows[1..];
      }
    }

    /** `resetSettings`: deletes every record, so reading answers 404. */
    method Reset()
      modifies this
      ensures rows == []
      ensures Get() == Err(NotFound)
    {
      rows := [];
    }
  }
}
