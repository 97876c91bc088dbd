/** The importer as the resource runs it: parse the import ID and write the result into the resource data. */
module ZoneImport {
  import opened Wrappers
  import opened ZoneSchema
  import opened ResourceState
  import ImportId

  /**
   * Split the import string (the resource ID) on ':'; reject it when the
   * first part is empty or there are more than two parts, leaving the data
   * untouched; otherwise set `project_id` from a second part, if any, then
   * the ID from the first, and hand back the resource data.
   */
  method Import(d: ResourceData) returns (res: Result<seq<ResourceData>, ImportId.ImportError>)
    modifies d
    ensures ImportId.Parse(old(d.id)).Failure? ==>
              res == Failure(ImportId.UnexpectedFormat(old(d.id))) && d.Current() == old(d.Current())
    ensures ImportId.Parse(old(d.id)).Success? ==>
              var v := ImportId.Parse(old(d.id)).value;
              res == Success([d]) &&
              d.Current() == (if v.projectId.Some? then old(d.Current()).With(ProjectId, Str(v.projectId.value))
                              else old(d.Current())).WithId(v.id)
  {
    var parts := ImportId.Split(d.id, ImportId.SEPARATOR);
    if parts[0] == "" || |parts| > 2 {
      return Failure(ImportId.UnexpectedFormat(d.id));
    } else if |parts| == 2 {
      d.Set(ProjectId, Str(parts[1]));
    }
    d.SetId(parts[0]);
    return Success([d]);
  }
}
