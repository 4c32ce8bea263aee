/** The choice between the uploads, FilesExt.upload in databricks/sdk/mixins/files.py. */
module FilesUpload {
  import opened Common
  import opened Retries
  import BaseClient
  import MultipartUpload
  import ResumableUpload

  /** The reply to the request that initiates an upload of a larger stream. For a multipart upload an empty
      session token counts as none; for a resumable one it does not. */
  datatype Initiated =
    | Multipart(sessionToken: Option<string>)
    | Resumable(sessionToken: Option<string>)
    | Unexpected
    | Failed

  datatype UploadResult =
    | OneShotDone
    | MultipartDone
    | ResumableDone
    | UnexpectedServerResponse
    | MissingKey
    | RequestFailed
    | MultipartFailed(multipart: MultipartUpload.UploadResult)
    | ResumableFailed(resumable: ResumableUpload.UploadResult)

  datatype Config = Config(minStreamSize: nat, chunkSize: nat, maxRetries: nat, retryTimeout: int)

  /** The file as the workspace stores it after an upload in a single request. */
  class Workspace {
    var file: Option<Bytes>

    constructor ()
      ensures file == None
    {
      file := None;
    }

    method Put(contents: Bytes, clock: Clock, timeout: int) returns (ok: bool)
      modifies this, clock
      ensures ok ==> file == Some(contents)
    {
      var request := new Request(contents, 0, false);
      assert request.body[request.position..] == contents;
      var result;
      ghost var slept;
      result, slept := BaseClient.Do(request, BaseClient.SeekableStream, clock, timeout);
      ok := result.Success?;
      if ok {
        file := Some(request.attempts[|request.attempts| - 1].sent);
      }
    }
  }

  /** Uploads what is left of a stream. `workspace`, `multipart` and `resumable` are where the upload can
      end up; `initiated` is what the server answers when asked to start one of the latter two. */
  method Upload(contents: InputStream, overwrite: Option<bool>, config: Config, initiated: Initiated,
                workspace: Workspace, multipart: MultipartUpload.Session, resumable: ResumableUpload.Session,
                clock: Clock)
    returns (r: UploadResult)
    requires contents.Valid() && config.chunkSize >= 1
    requires multipart.parts == map[] && multipart.puts == [] && multipart.assembled == None
    requires multipart.trouble == None && multipart.fates == []
    requires resumable.stored == [] && resumable.total == None && resumable.log == [] && resumable.burst == 0
    modifies contents, workspace, multipart, resumable, clock
    ensures contents.Valid()
    // A small stream goes out in one request; for a stream that reads short this is what it gave first.
    ensures r.OneShotDone? ==>
              && old(contents.pos) <= contents.pos
              && workspace.file == Some(contents.data[old(contents.pos)..contents.pos])
              && contents.pos - old(contents.pos) < config.minStreamSize
              && (contents.full ==> workspace.file == Some(old(contents.Rest())))
    ensures r.MultipartDone? ==> multipart.assembled == Some(old(contents.Rest()))
    ensures r.ResumableDone? && resumable.faithful && contents.full ==>
              resumable.Complete() && resumable.stored == old(contents.Rest())
    // Size and server choose the way, and nothing but that way's own failure is reported.
    ensures contents.full ==>
              if old(|contents.Rest()|) < config.minStreamSize then r.OneShotDone? || r.RequestFailed?
              else match initiated
                   case Failed => r.RequestFailed?
                   case Unexpected => r.UnexpectedServerResponse?
                   case Multipart(token) =>
                     if token in {None, Some("")} then r.UnexpectedServerResponse?
                     else r.MultipartDone? || r.MultipartFailed?
                   case Resumable(token) =>
                     if token == None then r.MissingKey? else r.ResumableDone? || r.ResumableFailed?
    ensures r.MultipartFailed? ==>
              MultipartUpload.CalledFor(multipart.trouble, multipart.fates, config.maxRetries, r.multipart)
    ensures r.ResumableFailed? ==>
              ResumableUpload.CalledFor(resumable, overwrite == Some(true), config.maxRetries, r.resumable)
    // A failed upload is aborted once, a finished one never.
    ensures multipart.aborts == old(multipart.aborts) + if r.MultipartFailed? then 1 else 0
    ensures resumable.aborts == old(resumable.aborts) + if r.ResumableFailed? then 1 else 0
  {
    ghost var content := contents.Rest();
    var preReadBuffer := contents.Read(config.minStreamSize);
    if |preReadBuffer| < config.minStreamSize {
      assert contents.full ==> contents.Rest() == [] && preReadBuffer == content;
      var ok := workspace.Put(preReadBuffer, clock, config.retryTimeout);
      return if ok then OneShotDone else RequestFailed;
    }
    match initiated {
      case Failed =>
        return RequestFailed;
      case Unexpected =>
        return UnexpectedServerResponse;
      case Multipart(sessionToken) =>
        if sessionToken == None || sessionToken == Some("") {
          return UnexpectedServerResponse;
        }
        var result := MultipartUpload.PerformMultipartUpload(multipart, contents, preReadBuffer, config.chunkSize,
                                                             config.maxRetries, clock, config.retryTimeout);
        if !result.Done? {
          multipart.Abort();
          return MultipartFailed(result);
        }
        return MultipartDone;
      case Resumable(sessionToken) =>
        if sessionToken == None {
          return MissingKey;
        }
        var result := ResumableUpload.PerformResumableUpload(resumable, contents, overwrite == Some(true),
                                                             preReadBuffer, config.chunkSize, config.maxRetries);
        return if result.Done? then ResumableDone else ResumableFailed(result);
    }
  }
}
