/** The per-section staging buffer as the object the generator updates in place. */
module ModWriters {
  import opened Cursors
  import opened Staging

  class ModWriter {
    var level: nat
    const section: Section
    var buffers: seq<string>
    var delayedBuffer: Cursor
    var finalStage: string
    var definedTypes: seq<string>

    /** The value of this writer's state. */
    function Model(): Stage
      reads this
    {
      Stage(section, level, buffers, delayedBuffer, finalStage, definedTypes)
    }

    constructor (section: Section)
      ensures Model() == NewStage(section)
    {
      this.section := section;
      level, buffers, delayedBuffer, finalStage, definedTypes := 0, [], Empty, [], [];
      new;
      if section != Root {
        PrintModHeader(ModName(section));
      }
    }

    method PrintModHeader(modName: string)
      modifies this
      ensures Model() == old(Model()).Write("pub mod " + modName + " {\n", 0)
                                      .Write("use yaserde::{{YaSerialize, YaDeserialize}};\n\n", 0)
                                      .Write("use super::*;\n\n", 0)
    {
      Write("pub mod " + modName + " {\n", 0);
      PrintHeader();
      Write("use super::*;\n\n", 0);
    }

    method PrintHeader()
      modifies this
      ensures Model() == old(Model()).Write("use yaserde::{{YaSerialize, YaDeserialize}};\n\n", 0)
    {
      Write("use yaserde::{{YaSerialize, YaDeserialize}};\n\n", 0);
    }

    method PrintFooter()
      modifies this
      ensures Model() == old(Model()).PrintFooter()
    {
      if section != Root {
        Write("}\n\n", 0);
      }
    }

    /** Pops every stacked buffer, innermost first, onto the final text. */
    method FlushBuffers()
      modifies this
      ensures Model() == old(Model()).FlushBuffers()
      ensures buffers == [] && finalStage == old(finalStage) + Unwind(old(buffers)) && level == old(level)
    {
      FlushBuffersUnwinds(Model());
      while buffers != []
        invariant Model().FlushBuffers() == old(Model()).FlushBuffers()
        decreases |buffers|
      {
        var cursor := buffers[|buffers| - 1];
        buffers := buffers[..|buffers| - 1];
        finalStage := finalStage + cursor;
      }
    }

    method FlushDelayedBuffer()
      modifies this
      ensures Model() == old(Model()).FlushDelayedBuffer()
    {
      delayedBuffer := delayedBuffer.(pos := 0);
      var text := delayedBuffer.data[delayedBuffer.pos..];
      if level == 0 {
        finalStage := finalStage + text;
        delayedBuffer := delayedBuffer.(pos := |delayedBuffer.data|);
      } else if level - 1 < |buffers| {
        buffers := buffers[level - 1 := buffers[level - 1] + text];
        delayedBuffer := delayedBuffer.(pos := |delayedBuffer.data|);
      }
    }

    method SetLevel(l: nat)
      modifies this
      ensures Model() == old(Model()).SetLevel(l)
    {
      level := l;
      if l == 0 {
        FlushBuffers();
      }
      if |buffers| < level {
        buffers := buffers + [[]];
      }
    }

    method Write(buf: string, at: nat)
      modifies this
      ensures Model() == old(Model()).Write(buf, at)
    {
      if at == 0 {
        finalStage := finalStage + buf;
      } else if at - 1 < |buffers| {
        buffers := buffers[at - 1 := buffers[at - 1] + buf];
      }
    }

    method DelayedWrite(buf: string)
      modifies this
      ensures Model() == old(Model()).DelayedWrite(buf)
    {
      delayedBuffer := delayedBuffer.Write(buf);
    }

    /** Closes the module and hands out the whole final text. */
    method ReadForOutput() returns (text: string)
      modifies this
      ensures (Model(), text) == old(Model()).ReadForOutput()
    {
      PrintFooter();
      text := finalStage;
    }

    method SeenType(t: string)
      modifies this
      ensures Model() == old(Model()).SeenType(t)
    {
      definedTypes := definedTypes + [t];
    }

    method ResetDefinedTypes()
      modifies this
      ensures Model() == old(Model()).ResetDefinedTypes()
    {
      definedTypes := [];
    }

    /** Whether `t` was recorded since the last reset. */
    method HaveSeenType(t: string) returns (seen: bool)
      ensures seen <==> t in definedTypes
    {
      seen := t in definedTypes;
    }
  }
}
