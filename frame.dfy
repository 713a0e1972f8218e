/** Frame.cpp: one GstVideoFrame and whether it is currently mapped.
    gst_video_frame_map and the GL sync wait are outside the model: the
    outcome of the native map is a parameter, and a buffer is reduced to
    the two things the frame reads from it. */
module Frame {

  /** A GstBuffer as the frame sees it: whether it carries GstGLSyncMeta,
      and the GL texture name stored in its first plane. */
  datatype Buffer = Buffer(hasSyncMeta: bool, texture: nat)

  /** The outcome of waitSync. */
  datatype WaitResult = Waited | Thrown(what: string)

  class Frame {
    /** d_mapped. */
    var mapped: bool
    /** d_frame->buffer, meaningful while mapped. */
    var buffer: Buffer
    /** gst_video_frame_unmap calls. */
    var unmaps: nat
    /** gst_gl_sync_meta_wait calls. */
    var waits: nat

    /** A new frame is unmapped. */
    constructor ()
      ensures !mapped && unmaps == 0 && waits == 0
    {
      mapped := false;
      buffer := Buffer(false, 0);
      unmaps, waits := 0, 0;
    }

    /** map: the flag becomes the native map's result, which is returned. */
    method Map(b: Buffer, nativeMapOk: bool) returns (ok: bool)
      modifies this`mapped, this`buffer
      ensures ok == nativeMapOk && mapped == nativeMapOk
      ensures nativeMapOk ==> buffer == b
      ensures !nativeMapOk ==> buffer == old(buffer)
    {
      mapped := nativeMapOk;
      if nativeMapOk {
        buffer := b;
      }
      ok := mapped;
    }

    /** unmap: nothing on an unmapped frame; otherwise one native unmap. */
    method Unmap()
      modifies this`mapped, this`unmaps
      ensures !mapped
      ensures unmaps == old(unmaps) + (if old(mapped) then 1 else 0)
    {
      if !mapped {
        return;
      }
      unmaps := unmaps + 1;
      mapped := false;
    }

    /** waitSync: throws, before waiting, when unmapped or when the buffer
        has no sync meta; otherwise waits exactly once. */
    method WaitSync() returns (r: WaitResult)
      modifies this`waits
      ensures !mapped ==> r == Thrown("frame is not mapped")
      ensures mapped && !buffer.hasSyncMeta ==> r == Thrown("buffer does not contain GstGLSyncMeta")
      ensures r == Waited <==> mapped && buffer.hasSyncMeta
      ensures waits == old(waits) + (if r == Waited then 1 else 0)
    {
      if !mapped {
        return Thrown("frame is not mapped");
      }
      if !buffer.hasSyncMeta {
        return Thrown("buffer does not contain GstGLSyncMeta");
      }
      waits := waits + 1;
      return Waited;
    }

    /** TexID: 0 while unmapped, the mapped buffer's texture otherwise. */
    function TexID(): (id: nat)
      reads this
      ensures !mapped ==> id == 0
      ensures mapped ==> id == buffer.texture
    {
      if !mapped then 0 else buffer.texture
    }
  }

  /** Unmapping twice does what unmapping once does, and afterwards the
      texture reads as 0. */
  method UnmapIdempotent(b: Buffer) returns (unmaps: nat, tex: nat)
    ensures unmaps == 1 && tex == 0
  {
    var f := new Frame();
    var ok := f.Map(b, true);
    f.Unmap();
    f.Unmap();
    unmaps, tex := f.unmaps, f.TexID();
  }

  /** A frame whose map failed cannot be waited on and reads texture 0. */
  method FailedMapThrows(b: Buffer) returns (r: WaitResult, tex: nat)
    ensures r == Thrown("frame is not mapped") && tex == 0
  {
    var f := new Frame();
    var ok := f.Map(b, false);
    r := f.WaitSync();
    tex := f.TexID();
  }
}
