/**
 * The pooled handle: a client for one model of one project and region.
 * Only the identity it records and the access token the pool assigns to it are modelled.
 */
module GenerativeModels {
  import opened Wrappers

  class GenerativeModel {
    const ProjectId: string
    const Region: string
    /** The model name as the handle stores it; the client library may store it differently from the name it was built with. */
    const Model: string
    var AccessToken: Option<string>

    constructor (projectId: string, region: string, model: string)
      ensures ProjectId == projectId && Region == region && Model == model
      ensures AccessToken == None
    {
      ProjectId, Region, Model := projectId, region, model;
      AccessToken := None;
    }
  }
}
